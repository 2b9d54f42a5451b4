/** The validator: what it accepts, stated over the walk, and the walk itself on linked nodes.

    The predicates below state acceptance as conditions on visited nodes and their ancestor chains. The
    methods run the checks as loops over heap nodes that carry parent links, moving a cursor upward, and
    are proved to decide exactly those predicates. */
module SqlValidator {
  import opened Prelude
  import opened SqlTree
  import opened SqlScope
  import opened SqlEval
  import opened SqlRun

  datatype Reason =
    | ParseError | MultiStatement | NonSelectRoot | SelectStar | DisallowedTable | DisallowedFunction
    | DisallowedConstruct | SystemSchema | WriteableCte | SelectInto | ExecutionError | Timeout | Misconfigured

  /** The caller's whitelist, the configured star ban, and the deny lists. */
  datatype Policy = Policy(allowed: set<string>, banStar: bool, deny: DenyLists)

  datatype ParsedQuery = ParsedQuery(ast: Node, referenced: set<string>)

  /** What the SQL parser returned: a failure, too deep a recursion, or one tree per statement; empty
      statements and stray semicolons carry no tree. */
  datatype Parse = Unparsable | TooDeep | Statements(trees: seq<Option<Node>>)

  // ----- acceptance, over the walk -----

  predicate IsSystemSchema(schema: string) {
    schema == "pg_catalog" || schema == "information_schema" || StartsWith(schema, "pg_")
  }

  predicate OffLimits(t: Node)
    requires t.Table?
  {
    IsSystemSchema(t.schema) || (t.schema == "" && StartsWith(t.name, "pg_"))
  }

  ghost predicate TableAccepted(allowed: set<string>, v: Visited)
    requires v.node.Table?
  {
    v.node.name != "" && !OffLimits(v.node) && (v.node.name in Bound(v.anc) || v.node.name in allowed)
  }

  /** Walking up from a star meets a SELECT before any COUNT. */
  ghost predicate StarEscapes(anc: seq<Node>) {
    anc != [] && !anc[0].Count? && (anc[0].Select? || StarEscapes(anc[1..]))
  }

  /** The names under which tables and CTEs appear anywhere in the statement. */
  ghost function TableNames(root: Node): set<string> {
    set m | m in Nodes(root) && m.Table? && EffAlias(m) != "" :: EffAlias(m)
  }

  /** No projection of the SELECT mentions, at any depth, an unqualified name among `names`. */
  ghost predicate ProjectsColumns(names: set<string>, n: Node)
    requires n.Select?
  {
    forall p, m | p in n.projs && m in Nodes(p) && m.Col? && m.qual.None? :: m.name !in names
  }

  ghost predicate NodeAccepted(p: Policy, root: Node, v: Visited) {
    && Harmless(p.deny, v.node)
    && (v.node.Table? ==> TableAccepted(p.allowed, v))
    && (p.banStar && v.node.Star? ==> !StarEscapes(v.anc))
    && (p.banStar && v.node.Select? ==> ProjectsColumns(TableNames(root), v.node))
  }

  ghost predicate Accepts(p: Policy, root: Node) {
    IsQuery(root) && forall v | v in Visit(root, []) :: NodeAccepted(p, root, v)
  }

  ghost function Names(ts: seq<TableId>): set<string> { set t | t in ts :: t.1 }

  /** The table names the validator reports for a statement. */
  ghost function Referenced(root: Node): set<string> { Names(WalkFree(Visit(root, []))) }

  /** Some visited node is at fault for the rejection. */
  ghost predicate AtFault(p: Policy, root: Node, reason: Reason) { exists v :: v in Visit(root, []) && Blames(p, root, reason, v) }

  /** The visited node at fault for a rejection. */
  ghost predicate Blames(p: Policy, root: Node, reason: Reason, v: Visited) {
    match reason
    case WriteableCte => v.node.Cte? && !IsQuery(v.node.body)
    case SelectInto => v.node.Select? && v.node.into.Some?
    case SystemSchema => v.node.Table? && OffLimits(v.node)
    case DisallowedTable => v.node.Table? && v.node.name !in Bound(v.anc) && v.node.name !in p.allowed
    case DisallowedFunction =>
      || ((v.node.Call? || v.node.Agg?) && Denied(p.deny, v.node.fn) && v.node.fn !in p.deny.srf)
      || (v.node.Col? && v.node.qual.None? && v.node.name in p.deny.keywords)
    case DisallowedConstruct =>
      || (IsQuery(v.node) && v.node.recursive)
      || v.node.TableFunc? || (v.node.Table? && v.node.name == "")
      || (v.node.Call? && v.node.typedSrf)
      || ((v.node.Call? || v.node.Agg?) && v.node.fn != "" && v.node.fn in p.deny.srf)
    case SelectStar =>
      && p.banStar
      && ((v.node.Star? && StarEscapes(v.anc)) || (v.node.Select? && !ProjectsColumns(TableNames(root), v.node)))
    case _ => false
  }

  // ----- linked nodes -----

  /** A node as the parser builds it: its content, and a link to the parent it was attached to. */
  class Expression {
    const node: Node
    const parent: Expression?

    constructor (node: Node, parent: Expression?)
      ensures this.node == node && this.parent == parent
    {
      this.node := node;
      this.parent := parent;
    }
  }

  /** Following parent links from `e` meets the nodes `anc` and then the root's absent parent. */
  ghost predicate ChainIs(e: Expression?, anc: seq<Node>)
    decreases |anc|
  {
    if anc == [] then e == null else e != null && e.node == anc[0] && ChainIs(e.parent, anc[1..])
  }

  ghost predicate Mirrors(hs: seq<Expression>, vs: seq<Visited>) {
    |hs| == |vs| && forall i | 0 <= i < |hs| :: hs[i].node == vs[i].node && ChainIs(hs[i].parent, vs[i].anc)
  }

  lemma MirrorsAppend(hs: seq<Expression>, vs: seq<Visited>, gs: seq<Expression>, ws: seq<Visited>)
    requires Mirrors(hs, vs) && Mirrors(gs, ws)
    ensures Mirrors(hs + gs, vs + ws)
  {
  }

  lemma {:induction false} AliasMember(cs: seq<Node>, name: string)
    ensures name in Aliases(cs) <==> exists i :: 0 <= i < |cs| && cs[i].Cte? && cs[i].alias == name
  {
    if cs != [] {
      AliasMember(cs[1..], name);
      if i :| 0 <= i < |cs| && cs[i].Cte? && cs[i].alias == name {
        assert i > 0 ==> cs[1..][i - 1] == cs[i];
      }
      if i :| 0 <= i < |cs[1..]| && cs[1..][i].Cte? && cs[1..][i].alias == name {
        assert cs[i + 1] == cs[1..][i];
      }
    }
  }

  /** Link a tree and list its nodes in visiting order. */
  method FindAll(n: Node, parent: Expression?, ghost anc: seq<Node>) returns (hs: seq<Expression>)
    requires ChainIs(parent, anc)
    ensures Mirrors(hs, Visit(n, anc))
    decreases n
  {
    KidsSmaller(n);
    var e := new Expression(n, parent);
    assert ([n] + anc)[1..] == anc;
    var below := FindAllIn(n, Kids(n), e, [n] + anc);
    MirrorsAppend([e], [Visited(n, anc)], below, VisitAll(n, Kids(n), [n] + anc));
    hs := [e] + below;
  }

  method FindAllIn(ghost ctx: Node, ns: seq<Node>, parent: Expression, ghost anc: seq<Node>) returns (hs: seq<Expression>)
    requires Under(ns, ctx) && ChainIs(parent, anc)
    ensures Mirrors(hs, VisitAll(ctx, ns, anc))
    decreases ctx, |ns|
  {
    if ns == [] { return []; }
    var head := FindAll(ns[0], parent, anc);
    var tail := FindAllIn(ctx, ns[1..], parent, anc);
    MirrorsAppend(head, Visit(ns[0], anc), tail, VisitAll(ctx, ns[1..], anc));
    hs := head + tail;
  }

  /** Whether some ancestor query of `table` declares a CTE called `name`. */
  method ResolvesToCte(table: Expression, name: string, ghost anc: seq<Node>) returns (found: bool)
    requires ChainIs(table.parent, anc) && name != ""
    ensures found <==> name in Bound(anc)
  {
    var node := table.parent;
    ghost var up := anc;
    while node != null
      invariant ChainIs(node, up)
      invariant name in Bound(anc) <==> name in Bound(up)
      decreases |up|
    {
      var ctes := Ctes(node.node);
      AliasMember(ctes, name);
      for j := 0 to |ctes|
        invariant forall k | 0 <= k < j :: !(ctes[k].Cte? && ctes[k].alias == name)
      {
        if ctes[j].Cte? && ctes[j].alias != "" && ctes[j].alias == name { return true; }
      }
      node := node.parent;
      up := up[1..];
    }
    return false;
  }

  /** Climb from a star until a COUNT excuses it or a SELECT claims it. */
  method ReachesSelect(star: Expression, ghost anc: seq<Node>) returns (escapes: bool)
    requires ChainIs(star.parent, anc)
    ensures escapes <==> StarEscapes(anc)
  {
    var cur := star.parent;
    ghost var up := anc;
    while cur != null
      invariant ChainIs(cur, up)
      invariant StarEscapes(anc) <==> StarEscapes(up)
      decreases |up|
    {
      if cur.node.Count? { return false; }
      if cur.node.Select? { return true; }
      cur := cur.parent;
      up := up[1..];
    }
    return false;
  }

  /** The name a visited node adds to the report, if any. */
  ghost function NameAt(v: Visited): Option<string> {
    if v.node.Table? && v.node.name !in Bound(v.anc) then Some(v.node.name) else None
  }

  function Singleton(name: Option<string>): set<string> { if name.Some? then {name.value} else {} }

  lemma WalkFreeSnoc(vs: seq<Visited>, v: Visited)
    ensures Names(WalkFree(vs + [v])) == Names(WalkFree(vs)) + Singleton(NameAt(v))
  {
    WalkFreeAppend(vs, [v]);
    var extra := if v.node.Table? && v.node.name !in Bound(v.anc) then [(v.node.schema, v.node.name)] else [];
    assert WalkFree([v]) == extra;
    assert forall t :: t in WalkFree(vs) + extra <==> t in WalkFree(vs) || t in extra;
    if extra != [] { assert extra[0] in WalkFree(vs) + extra; }
  }

  lemma NamesStart(vs: seq<Visited>)
    ensures Names(WalkFree(vs[..0])) == {} && vs[..|vs|] == vs
  {
    assert vs[..0] == [];
  }

  lemma NamesStep(vs: seq<Visited>, i: nat)
    requires i < |vs|
    ensures Names(WalkFree(vs[..i + 1])) == Names(WalkFree(vs[..i])) + Singleton(NameAt(vs[i]))
  {
    assert vs[..i + 1] == vs[..i] + [vs[i]];
    WalkFreeSnoc(vs[..i], vs[i]);
  }

  /** The node is no table, or one that passes. */
  ghost predicate TableOk(allowed: set<string>, v: Visited) {
    !v.node.TableFunc? && (v.node.Table? ==> TableAccepted(allowed, v))
  }

  /** One node of the walk: a table must be named, outside the system schemas, and either a CTE in scope
      or whitelisted. Returns the name it adds to the report, if any. */
  method CheckTable(p: Policy, table: Expression, ghost root: Node, ghost v: Visited) returns (r: Result<Option<string>, Reason>)
    requires table.node == v.node && ChainIs(table.parent, v.anc)
    ensures r.Ok? ==> TableOk(p.allowed, v)
    ensures r.Ok? ==> r.value == NameAt(v)
    ensures r.Failed? ==> Blames(p, root, r.error, v)
  {
    var node := table.node;
    if node.TableFunc? || (node.Table? && node.name == "") { return Failed(DisallowedConstruct); }
    if !node.Table? { return Ok(None); }
    if IsSystemSchema(node.schema) || (node.schema == "" && StartsWith(node.name, "pg_")) { return Failed(SystemSchema); }
    var cte := ResolvesToCte(table, node.name, v.anc);
    if cte { return Ok(None); }
    if node.name !in p.allowed { return Failed(DisallowedTable); }
    return Ok(Some(node.name));
  }

  /** Every table must pass; the free names are collected. */
  method CheckTables(p: Policy, hs: seq<Expression>, ghost root: Node, ghost vs: seq<Visited>) returns (r: Result<set<string>, Reason>)
    requires Mirrors(hs, vs)
    ensures r.Ok? ==> forall i | 0 <= i < |vs| :: TableOk(p.allowed, vs[i])
    ensures r.Ok? ==> r.value == Names(WalkFree(vs))
    ensures r.Failed? ==> exists i :: 0 <= i < |vs| && Blames(p, root, r.error, vs[i])
  {
    var referenced: set<string> := {};
    NamesStart(vs);
    hide WalkFree, Names, NameAt, Blames, TableOk, ChainIs, Bound, Singleton;
    for i := 0 to |hs|
      invariant forall k | 0 <= k < i :: TableOk(p.allowed, vs[k])
      invariant referenced == Names(WalkFree(vs[..i]))
    {
      NamesStep(vs, i);
      var checked := CheckTable(p, hs[i], root, vs[i]);
      if checked.Failed? { return Failed(checked.error); }
      referenced := referenced + Singleton(checked.value);
    }
    return Ok(referenced);
  }

  method CheckNoSelectStar(p: Policy, hs: seq<Expression>, ghost root: Node, ghost vs: seq<Visited>) returns (ok: bool)
    requires Mirrors(hs, vs) && p.banStar
    ensures ok ==> forall i | 0 <= i < |vs| :: vs[i].node.Star? ==> !StarEscapes(vs[i].anc)
    ensures !ok ==> exists i :: 0 <= i < |vs| && Blames(p, root, SelectStar, vs[i])
  {
    for i := 0 to |hs|
      invariant forall k | 0 <= k < i :: vs[k].node.Star? ==> !StarEscapes(vs[k].anc)
    {
      if hs[i].node.Star? {
        var escapes := ReachesSelect(hs[i], vs[i].anc);
        if escapes {
          assert Blames(p, root, SelectStar, vs[i]);
          return false;
        }
      }
    }
    return true;
  }

  method CollectTableNames(hs: seq<Expression>, ghost root: Node) returns (names: set<string>)
    requires Mirrors(hs, Visit(root, []))
    ensures names == TableNames(root)
  {
    ghost var vs := Visit(root, []);
    names := {};
    for i := 0 to |hs|
      invariant names == set v | v in vs[..i] && v.node.Table? && EffAlias(v.node) != "" :: EffAlias(v.node)
    {
      assert vs[..i + 1] == vs[..i] + [vs[i]];
      if hs[i].node.Table? && EffAlias(hs[i].node) != "" { names := names + {EffAlias(hs[i].node)}; }
    }
    assert vs[..|hs|] == vs;
    NamesCollected(root);
  }

  lemma NamesCollected(root: Node)
    ensures TableNames(root) == set v | v in Visit(root, []) && v.node.Table? && EffAlias(v.node) != "" :: EffAlias(v.node)
  {
    VisitMeetsNodes(root, []);
    var names := set v | v in Visit(root, []) && v.node.Table? && EffAlias(v.node) != "" :: EffAlias(v.node);
    forall m | m in Nodes(root) && m.Table? && EffAlias(m) != "" ensures EffAlias(m) in names {
      var v :| v in Visit(root, []) && v.node == m;
    }
  }

  /** Whether a projection mentions an unqualified name among `names`. */
  method MentionsName(projection: Node, names: set<string>) returns (found: bool)
    ensures found <==> exists m :: m in Nodes(projection) && m.Col? && m.qual.None? && m.name in names
  {
    var vs := Visit(projection, []);
    VisitMeetsNodes(projection, []);
    for i := 0 to |vs|
      invariant forall k | 0 <= k < i :: !(vs[k].node.Col? && vs[k].node.qual.None? && vs[k].node.name in names)
    {
      var col := vs[i].node;
      if col.Col? && col.qual.None? && col.name in names {
        assert vs[i] in vs && col in Nodes(projection);
        return true;
      }
    }
    return false;
  }

  method ProjectionsAvoid(sel: Node, names: set<string>) returns (ok: bool)
    requires sel.Select?
    ensures ok <==> ProjectsColumns(names, sel)
  {
    for j := 0 to |sel.projs|
      invariant forall k, m | 0 <= k < j && m in Nodes(sel.projs[k]) && m.Col? && m.qual.None? :: m.name !in names
    {
      var found := MentionsName(sel.projs[j], names);
      if found {
        assert sel.projs[j] in sel.projs;
        return false;
      }
    }
    return true;
  }

  method CheckNoWholeRowRefs(p: Policy, hs: seq<Expression>, ghost root: Node) returns (ok: bool)
    requires Mirrors(hs, Visit(root, [])) && p.banStar
    ensures ok ==> forall v | v in Visit(root, []) :: v.node.Select? ==> ProjectsColumns(TableNames(root), v.node)
    ensures !ok ==> exists i :: 0 <= i < |Visit(root, [])| && Blames(p, root, SelectStar, Visit(root, [])[i])
  {
    ghost var vs := Visit(root, []);
    var names := CollectTableNames(hs, root);
    for i := 0 to |hs|
      invariant forall k | 0 <= k < i :: vs[k].node.Select? ==> ProjectsColumns(names, vs[k].node)
    {
      if hs[i].node.Select? {
        var clean := ProjectionsAvoid(hs[i].node, names);
        if !clean {
          assert Blames(p, root, SelectStar, vs[i]);
          return false;
        }
      }
    }
    return true;
  }

  /** The checks that look at one node at a time; `None` when the node passes them. */
  function NodeReason(d: DenyLists, n: Node): Option<Reason> {
    if n.Cte? && !IsQuery(n.body) then Some(WriteableCte)
    else if IsQuery(n) && n.recursive then Some(DisallowedConstruct)
    else if n.Select? && n.into.Some? then Some(SelectInto)
    else if n.Call? && n.typedSrf then Some(DisallowedConstruct)
    else if (n.Call? || n.Agg?) && n.fn != "" && n.fn in d.srf then Some(DisallowedConstruct)
    else if (n.Call? || n.Agg?) && Denied(d, n.fn) then Some(DisallowedFunction)
    else if n.Col? && n.qual.None? && n.name in d.keywords then Some(DisallowedFunction)
    else None
  }

  method CheckNodes(p: Policy, hs: seq<Expression>, ghost root: Node, ghost vs: seq<Visited>) returns (r: Option<Reason>)
    requires Mirrors(hs, vs)
    ensures r.None? ==> forall i | 0 <= i < |vs| :: vs[i].node.TableFunc? || Harmless(p.deny, vs[i].node)
    ensures r.Some? ==> exists i :: 0 <= i < |vs| && Blames(p, root, r.value, vs[i])
  {
    for i := 0 to |hs|
      invariant forall k | 0 <= k < i :: vs[k].node.TableFunc? || Harmless(p.deny, vs[k].node)
    {
      var reason := NodeReason(p.deny, hs[i].node);
      if reason.Some? {
        assert Blames(p, root, reason.value, vs[i]);
        return reason;
      }
    }
    return None;
  }

  /** The one statement of the input, or why there is none to validate. */
  function SoleQuery(parse: Parse): Result<Node, Reason> {
    if !parse.Statements? then Failed(ParseError)
    else
      var trees := Trees(parse.trees);
      if trees == [] then Failed(ParseError)
      else if |trees| > 1 then Failed(MultiStatement)
      else if !IsQuery(trees[0]) then Failed(NonSelectRoot)
      else Ok(trees[0])
  }

  function Trees(ts: seq<Option<Node>>): seq<Node> {
    if ts == [] then [] else OptSeq(ts[0]) + Trees(ts[1..])
  }

  /** At least two of the trees are there. */
  ghost predicate Several(ts: seq<Option<Node>>) { exists i, j :: 0 <= i < j < |ts| && ts[i].Some? && ts[j].Some? }

  /** `q` stands at position `i`, and at every other there is no tree. */
  ghost predicate AloneAt(ts: seq<Option<Node>>, i: nat, q: Node)
    requires i < |ts|
  {
    ts[i] == Some(q) && forall j | 0 <= j < |ts| && j != i :: ts[j].None?
  }

  ghost predicate Alone(ts: seq<Option<Node>>, q: Node) { exists i: nat :: i < |ts| && AloneAt(ts, i, q) }

  ghost predicate Absent(ts: seq<Option<Node>>) { forall i | 0 <= i < |ts| :: ts[i].None? }

  lemma {:induction false} NoTrees(ts: seq<Option<Node>>)
    ensures Trees(ts) == [] <==> Absent(ts)
  {
    if ts != [] {
      NoTrees(ts[1..]);
      assert forall i | 1 <= i < |ts| :: ts[i] == ts[1..][i - 1];
    }
  }

  lemma AloneFirst(t: Option<Node>, rest: seq<Option<Node>>, q: Node)
    ensures AloneAt([t] + rest, 0, q) <==> t == Some(q) && Absent(rest)
  {
    var ts := [t] + rest;
    assert forall i | 0 <= i < |rest| :: ts[i + 1] == rest[i];
  }

  lemma AloneLater(t: Option<Node>, rest: seq<Option<Node>>, i: nat, q: Node)
    requires i < |rest|
    ensures AloneAt([t] + rest, i + 1, q) <==> t.None? && AloneAt(rest, i, q)
  {
    var ts := [t] + rest;
    assert ts[0] == t && forall i | 0 <= i < |rest| :: ts[i + 1] == rest[i];
  }

  lemma AloneCons(t: Option<Node>, rest: seq<Option<Node>>, q: Node)
    ensures Alone([t] + rest, q) <==> if t.Some? then t.value == q && Absent(rest) else Alone(rest, q)
  {
    AloneFirst(t, rest, q);
    forall i: nat | i < |rest| ensures AloneAt([t] + rest, i + 1, q) <==> t.None? && AloneAt(rest, i, q) { AloneLater(t, rest, i, q); }
    hide AloneAt, Absent;
    if Alone([t] + rest, q) {
      var i: nat :| i < |[t] + rest| && AloneAt([t] + rest, i, q);
      if i > 0 { assert AloneAt(rest, i - 1, q); }
    }
    if Alone(rest, q) && t.None? {
      var i: nat :| i < |rest| && AloneAt(rest, i, q);
      assert AloneAt([t] + rest, i + 1, q);
    }
  }

  lemma {:induction false} OneTree(ts: seq<Option<Node>>, q: Node)
    ensures Trees(ts) == [q] <==> Alone(ts, q)
  {
    if ts != [] {
      var rest := Trees(ts[1..]);
      assert ts == [ts[0]] + ts[1..] && Trees(ts) == OptSeq(ts[0]) + rest;
      AloneCons(ts[0], ts[1..], q);
      NoTrees(ts[1..]);
      OneTree(ts[1..], q);
      hide Alone, Trees;
      if ts[0].Some? { HeadIs(ts[0].value, rest, q); } else { assert [] + rest == rest; }
    }
  }

  lemma HeadIs<T>(x: T, rest: seq<T>, q: T)
    ensures [x] + rest == [q] <==> x == q && rest == []
  {
    if [x] + rest == [q] { assert ([x] + rest)[0] == q && |rest| == 0; }
  }

  lemma {:induction false} ManyTrees(ts: seq<Option<Node>>)
    ensures |Trees(ts)| > 1 <==> Several(ts)
  {
    if ts != [] {
      var rest := ts[1..];
      NoTrees(rest);
      ManyTrees(rest);
      assert forall i | 1 <= i < |ts| :: ts[i] == rest[i - 1];
      if Several(rest) {
        var i, j :| 0 <= i < j < |rest| && rest[i].Some? && rest[j].Some?;
        assert ts[i + 1].Some? && ts[j + 1].Some?;
      }
      if Several(ts) {
        var i, j :| 0 <= i < j < |ts| && ts[i].Some? && ts[j].Some?;
        assert rest[j - 1].Some?;
        if i > 0 { assert rest[i - 1].Some?; }
      }
    }
  }

  /** Which inputs hold one query, and what is said of the others, by the positions of their trees. */
  lemma SoleStatement(parse: Parse)
    ensures forall q :: SoleQuery(parse) == Ok(q) <==> parse.Statements? && Alone(parse.trees, q) && IsQuery(q)
    ensures SoleQuery(parse) == Failed(MultiStatement) <==> parse.Statements? && Several(parse.trees)
    ensures SoleQuery(parse) == Failed(NonSelectRoot) <==> parse.Statements? && exists q :: Alone(parse.trees, q) && !IsQuery(q)
    ensures SoleQuery(parse) == Failed(ParseError) <==> (parse.Statements? ==> Absent(parse.trees))
  {
    if parse.Statements? {
      var ts := parse.trees;
      NoTrees(ts);
      ManyTrees(ts);
      forall q ensures Trees(ts) == [q] <==> Alone(ts, q) { OneTree(ts, q); }
      hide Trees, Alone, Several, Absent;
      if |Trees(ts)| == 1 { assert Trees(ts) == [Trees(ts)[0]]; }
    }
  }

  /** The reasons a validator may give. */
  predicate Refusal(reason: Reason) { !reason.Timeout? && !reason.ExecutionError? && !reason.Misconfigured? }

  /** Every check in turn over one query. */
  method CheckStatement(p: Policy, root: Node) returns (r: Result<set<string>, Reason>)
    requires IsQuery(root)
    ensures r.Ok? <==> Accepts(p, root)
    ensures r.Ok? ==> r.value == Referenced(root)
    ensures r.Failed? ==> AtFault(p, root, r.error) && Refusal(r.error)
  {
    hide Blames, AtFault, Accepts, Mirrors, Harmless, TableOk, StarEscapes, ProjectsColumns, TableNames, Refusal;
    ghost var vs := Visit(root, []);
    var hs := FindAll(root, null, []);
    var bad := CheckNodes(p, hs, root, vs);
    if bad.Some? {
      BlamedIsRejected(p, root, bad.value);
      return Failed(bad.value);
    }
    var tables := CheckTables(p, hs, root, vs);
    if tables.Failed? {
      BlamedIsRejected(p, root, tables.error);
      return Failed(tables.error);
    }
    if p.banStar {
      var stars := CheckNoSelectStar(p, hs, root, vs);
      if !stars {
        BlamedIsRejected(p, root, SelectStar);
        return Failed(SelectStar);
      }
      var rows := CheckNoWholeRowRefs(p, hs, root);
      if !rows {
        BlamedIsRejected(p, root, SelectStar);
        return Failed(SelectStar);
      }
    }
    PassedIsAccepted(p, root, vs);
    return Ok(tables.value);
  }

  /** Accept exactly the serializable statements that satisfy `Accepts`, reporting the free names;
      otherwise blame a node for the reason given. */
  method ParseAndValidate(p: Policy, parse: Parse, serializable: bool) returns (r: Result<ParsedQuery, Reason>)
    ensures r.Ok? <==> SoleQuery(parse).Ok? && Accepts(p, SoleQuery(parse).value) && serializable
    ensures r.Ok? ==> r.value == ParsedQuery(SoleQuery(parse).value, Referenced(SoleQuery(parse).value))
    ensures SoleQuery(parse).Failed? ==> r == Failed(SoleQuery(parse).error)
    ensures r.Ok? ==> parse.Statements? && Alone(parse.trees, r.value.ast) && IsQuery(r.value.ast)
    ensures parse.Statements? && Several(parse.trees) ==> r == Failed(MultiStatement)
    ensures (parse.Statements? ==> Absent(parse.trees)) ==> r == Failed(ParseError)
    ensures parse.Statements? && (exists q :: Alone(parse.trees, q) && !IsQuery(q)) ==> r == Failed(NonSelectRoot)
    ensures SoleQuery(parse).Ok? && Accepts(p, SoleQuery(parse).value) && !serializable ==> r == Failed(ParseError)
    ensures SoleQuery(parse).Ok? && !Accepts(p, SoleQuery(parse).value) ==>
              r.Failed? && AtFault(p, SoleQuery(parse).value, r.error)
    ensures r.Failed? ==> Refusal(r.error)
  {
    var sole := SoleQuery(parse);
    SoleStatement(parse);
    if sole.Failed? { return Failed(sole.error); }
    hide SoleQuery, Alone, Several, Absent, Accepts, Referenced, AtFault;
    var root := sole.value;
    var names := CheckStatement(p, root);
    if names.Failed? { return Failed(names.error); }
    if !serializable { return Failed(ParseError); }
    return Ok(ParsedQuery(root, names.value));
  }

  /** A query every check has passed is accepted. */
  lemma PassedIsAccepted(p: Policy, root: Node, vs: seq<Visited>)
    requires IsQuery(root) && vs == Visit(root, [])
    requires forall i | 0 <= i < |vs| :: vs[i].node.TableFunc? || Harmless(p.deny, vs[i].node)
    requires forall i | 0 <= i < |vs| :: TableOk(p.allowed, vs[i])
    requires p.banStar ==> forall i | 0 <= i < |vs| :: vs[i].node.Star? ==> !StarEscapes(vs[i].anc)
    requires p.banStar ==> forall v | v in vs :: v.node.Select? ==> ProjectsColumns(TableNames(root), v.node)
    ensures Accepts(p, root)
  {
    forall v | v in vs ensures NodeAccepted(p, root, v) {
      var i :| 0 <= i < |vs| && vs[i] == v;
      assert TableOk(p.allowed, vs[i]);
    }
  }

  lemma BlamedIsRejected(p: Policy, root: Node, reason: Reason)
    requires exists i :: 0 <= i < |Visit(root, [])| && Blames(p, root, reason, Visit(root, [])[i])
    ensures !Accepts(p, root) && AtFault(p, root, reason) && Refusal(reason)
  {
    var vs := Visit(root, []);
    var i :| 0 <= i < |vs| && Blames(p, root, reason, vs[i]);
    assert vs[i] in vs;
    BlamedNode(p, root, reason, vs[i]);
  }

  lemma BlamedNode(p: Policy, root: Node, reason: Reason, v: Visited)
    requires Blames(p, root, reason, v)
    ensures !NodeAccepted(p, root, v)
  {
  }
}
