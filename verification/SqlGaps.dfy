/** Accepted statements that show the hypotheses of the safety theorems are needed: for non-interference a
    CTE that is not sequential, for column growth one witness each against the two COUNT forms, a NATURAL
    JOIN and a whole-row reference outside projections.

    The hypotheses are conditions on the text, so none of them can be necessary for every statement: with
    a row limit of zero no statement sees anything (`LimitZeroSeesNothing`). */
module SqlGaps {
  import opened Prelude
  import opened SqlTree
  import opened SqlScope
  import opened SqlEval
  import opened SqlRun
  import opened SqlStable
  import opened SqlValidator
  import opened SqlSafety
  import opened SqlGrowth

  function Plain(ctes: seq<Node>, projs: seq<Node>, sources: seq<Node>): Node {
    Select(ctes, false, false, projs, sources, None, [], None, [], None, None)
  }

  function Stored(name: string): Node { Table("", name, "") }

  function One(name: string, i: int): Tuple { [Field(name, Int(i))] }

  // ----- reading off a small tree -----

  /** What is left of the child list of a SELECT without HAVING, grouping, ordering and LIMIT. */
  lemma ShortKids(n: Node)
    requires n.Select? && n.keys == [] && n.having.None? && n.order == [] && n.limit.None?
    ensures Kids(n) == n.ctes + (n.projs + n.sources + OptSeq(n.cond))
  {
    assert Rest(n) == n.projs + n.sources + OptSeq(n.cond);
  }

  lemma NodesOfLeaf(n: Node)
    requires n.Col? || n.Star? || n.Table?
    ensures Nodes(n) == {n}
  {
    assert Kids(n) == [];
  }

  lemma NodesOf1(n: Node, x: Node)
    requires Kids(n) == [x]
    ensures Nodes(n) == {n} + Nodes(x)
  {
    KidsSmaller(n);
    assert [x] == [x] + [];
    NodesAllCons(n, x, []);
  }

  lemma NodesOf2(n: Node, x: Node, y: Node)
    requires Kids(n) == [x, y]
    ensures Nodes(n) == {n} + (Nodes(x) + Nodes(y))
  {
    KidsSmaller(n);
    assert x == Kids(n)[0] && y == Kids(n)[1];
    PairNodes(n, x, y);
  }

  lemma NodesOf3(n: Node, x: Node, y: Node, z: Node)
    requires Kids(n) == [x, y, z]
    ensures Nodes(n) == {n} + (Nodes(x) + (Nodes(y) + Nodes(z)))
  {
    KidsSmaller(n);
    assert x == Kids(n)[0] && y == Kids(n)[1] && z == Kids(n)[2];
    TripleNodes(n, x, y, z);
    hide NodesAll;
  }

  lemma TripleNodes(ctx: Node, x: Node, y: Node, z: Node)
    requires x < ctx && y < ctx && z < ctx
    ensures NodesAll(ctx, [x, y, z]) == Nodes(x) + (Nodes(y) + Nodes(z))
  {
    PairNodes(ctx, y, z);
    assert [x, y, z] == [x] + [y, z];
    NodesAllCons(ctx, x, [y, z]);
  }

  lemma PairNodes(ctx: Node, x: Node, y: Node)
    requires x < ctx && y < ctx
    ensures NodesAll(ctx, [x, y]) == Nodes(x) + Nodes(y)
  {
    assert [x, y] == [x] + [y] && [y] == [y] + [];
    NodesAllCons(ctx, x, [y]);
    NodesAllCons(ctx, y, []);
  }

  /** Below a query every ancestor chain ends in that query, so its CTE names are bound. */
  lemma {:induction false} AncestorsBind(n: Node, anc: seq<Node>)
    ensures forall v | v in Visit(n, anc) :: v == Visited(n, anc) || Aliases(Ctes(n)) + Bound(anc) <= Bound(v.anc)
    decreases n
  {
    KidsSmaller(n);
    assert ([n] + anc)[1..] == anc;
    AncestorsBindAll(n, Kids(n), [n] + anc);
  }

  lemma {:induction false} AncestorsBindAll(ctx: Node, ns: seq<Node>, anc: seq<Node>)
    requires Under(ns, ctx)
    ensures forall v | v in VisitAll(ctx, ns, anc) :: Bound(anc) <= Bound(v.anc)
    decreases ctx, |ns|
  {
    if ns != [] {
      AncestorsBind(ns[0], anc);
      AncestorsBindAll(ctx, ns[1..], anc);
    }
  }

  /** Where no SELECT intervenes, a COUNT above holds every star below. */
  lemma {:induction false} CountHolds(n: Node, anc: seq<Node>)
    requires forall m | m in Nodes(n) :: !m.Select?
    requires n.Count? || !StarEscapes(anc)
    ensures StarsHeld(n, anc)
    decreases n
  {
    KidsSmaller(n);
    assert n in Nodes(n);
    assert ([n] + anc)[1..] == anc;
    CountHoldsAll(n, Kids(n), [n] + anc);
  }

  lemma {:induction false} CountHoldsAll(ctx: Node, ns: seq<Node>, anc: seq<Node>)
    requires Under(ns, ctx) && !StarEscapes(anc)
    requires forall m | m in NodesAll(ctx, ns) :: !m.Select?
    ensures forall v | v in VisitAll(ctx, ns, anc) :: v.node.Star? ==> !StarEscapes(v.anc)
    decreases ctx, |ns|
  {
    if ns != [] {
      CountHolds(ns[0], anc);
      CountHoldsAll(ctx, ns[1..], anc);
    }
  }

  // ----- a CTE that reads the stored table of its own name -----

  /** WITH s AS (SELECT x FROM s) SELECT x FROM s */
  function SelfNamed(s: string, x: string): Node {
    Plain([Cte(s, SelfBody(s, x))], [Col(None, x)], [Stored(s)])
  }

  function SelfBody(s: string, x: string): Node { Plain([], [Col(None, x)], [Stored(s)]) }

  lemma SelfNamedNodes(s: string, x: string)
    ensures Nodes(SelfNamed(s, x)) == {SelfNamed(s, x), Cte(s, SelfBody(s, x)), SelfBody(s, x), Col(None, x), Stored(s)}
  {
    var q, b, col, t := SelfNamed(s, x), SelfBody(s, x), Col(None, x), Stored(s);
    var c := Cte(s, b);
    ShortKids(q);
    ShortKids(b);
    assert Kids(q) == [c, col, t] && Kids(b) == [col, t] && Kids(c) == [b];
    CteQueryNodes(q, c, b, col, t);
  }

  lemma CteQueryNodes(q: Node, c: Node, b: Node, col: Node, t: Node)
    requires Kids(q) == [c, col, t] && Kids(c) == [b] && Kids(b) == [col, t] && col.Col? && t.Table?
    ensures Nodes(q) == {q, c, b, col, t}
  {
    NodesOfLeaf(col);
    NodesOfLeaf(t);
    NodesOf2(b, col, t);
    NodesOf1(c, b);
    NodesOf3(q, c, col, t);
    hide Nodes, Kids;
    FiveMembers(q, c, b, col, t);
  }

  lemma FiveMembers<T>(q: T, c: T, b: T, col: T, t: T)
    ensures {q} + (({c} + ({b} + ({col} + {t}))) + ({col} + {t})) == {q, c, b, col, t}
  {
  }

  /** What the checks ask of a node when every table is either whitelisted or named by the statement's
      own WITH list, and every name projected is a column's. */
  ghost predicate Fits(p: Policy, q: Node, m: Node)
    requires IsQuery(q)
  {
    && Harmless(p.deny, m)
    && (m.Table? ==> m.name != "" && !OffLimits(m) && m.name in Aliases(q.ctes) + p.allowed)
    && (m.Select? ==> ProjectsColumns(TableNames(q), m))
  }

  lemma AcceptedByNodes(p: Policy, q: Node)
    requires IsQuery(q) && StarsHeld(q, [])
    requires forall m | m in Nodes(q) :: Fits(p, q, m)
    ensures Accepts(p, q)
  {
    VisitMeetsNodes(q, []);
    AncestorsBind(q, []);
    forall v | v in Visit(q, []) ensures NodeAccepted(p, q, v) {
      assert v.node in Nodes(q);
    }
  }

  lemma NoStarsHeld(q: Node)
    requires forall m | m in Nodes(q) :: !m.Star?
    ensures StarsHeld(q, [])
  {
    VisitMeetsNodes(q, []);
  }

  lemma ProjectsOne(q: Node, n: Node, x: string)
    requires n.Select? && n.projs == [Col(None, x)]
    requires forall m | m in Nodes(q) && m.Table? :: EffAlias(m) != x
    ensures ProjectsColumns(TableNames(q), n)
  {
    NodesOfLeaf(Col(None, x));
  }

  lemma SelfNamedAccepted(p: Policy, s: string, x: string)
    requires s != "" && s != x && !StartsWith(s, "pg_") && x !in p.deny.keywords
    ensures Accepts(p, SelfNamed(s, x))
  {
    var q, b := SelfNamed(s, x), SelfBody(s, x);
    SelfNamedNodes(s, x);
    hide Nodes;
    NoStarsHeld(q);
    ProjectsOne(q, q, x);
    ProjectsOne(q, b, x);
    assert q.ctes[0] == Cte(s, b);
    hide ProjectsColumns, TableNames;
    AcceptedByNodes(p, q);
  }

  /** With an empty whitelist the validator accepts the self-named CTE and reports no table, although
      PostgreSQL reads the stored table `s` for it. */
  lemma SelfNamedCteEscapes(p: Policy, s: string, x: string)
    requires s != "" && s != x && !StartsWith(s, "pg_") && x !in p.deny.keywords
    requires p.allowed == {}
    ensures Accepts(p, SelfNamed(s, x)) && Referenced(SelfNamed(s, x)) == {} && !Sequential(SelfNamed(s, x), {})
    ensures ("", s) in PgFree(SelfNamed(s, x), {})
  {
    SelfNamedAccepted(p, s, x);
    ReportedAreAllowed(p, SelfNamed(s, x));
    SelfNamedReads(s, x);
    if Sequential(SelfNamed(s, x), {}) {
      ReportedCoverReads(SelfNamed(s, x));
      assert false;
    }
  }

  lemma SelfNamedReads(s: string, x: string)
    ensures ("", s) in PgFree(SelfNamed(s, x), {})
  {
    var q, c, b := SelfNamed(s, x), Cte(s, SelfBody(s, x)), SelfBody(s, x);
    KidsSmaller(q);
    KidsSmaller(c);
    KidsSmaller(b);
    var none: set<string> := {};
    assert Rest(b) == [Col(None, x), Stored(s)];
    assert PgFree(Stored(s), none) == [("", s)];
    PgFreeMember(b, Rest(b), none, 1);
    assert none + Aliases(Ctes(b)) == none;
    assert ("", s) in PgFree(b, none);
    PgFreeMember(c, Rest(c), none, 0);
    assert none + Aliases(Ctes(c)) == none;
    assert ("", s) in PgFree(c, none);
  }

  /** Two databases that differ only in `s` give the self-named CTE different answers. */
  lemma SelfNamedCteLeaks(lib: Library, s: string, x: string, i: int, j: int)
    requires i != j
    ensures Answer(lib, map[("", s) := [One(x, i)]], SelfNamed(s, x)) != Answer(lib, map[("", s) := [One(x, j)]], SelfNamed(s, x))
  {
    SelfNamedAnswer(lib, s, x, i);
    SelfNamedAnswer(lib, s, x, j);
    assert One(x, i)[0] != One(x, j)[0];
  }

  lemma ColumnOf(lib: Library, db: Tables, env: Env, s: string, x: string, i: int)
    ensures EvalTuple(lib, db, env, [], [[Binding(s, One(x, i), false)]], [Col(None, x)]) == One(x, i)
  {
    var t := One(x, i);
    var f := [Binding(s, t, false)];
    assert FieldMatches(t, x) == [Int(i)] + FieldMatches(t[1..], x);
    assert ColMatches(f, None, x) == [Int(i)] + ColMatches(f[1..], None, x);
    assert [f] + [] == [f];
    assert EvalE(lib, db, env, [], [f], Col(None, x)) == Int(i);
    assert [Col(None, x)][1..] == [];
  }

  lemma FromStored(lib: Library, db: Tables, env: Env, s: string, x: string, i: int, n: Node)
    requires n.Select? && n.sources == [Stored(s)] && n.projs == [Col(None, x)]
    requires n.cond.None? && n.keys == [] && n.having.None? && n.order == [] && !n.distinct
    requires (if s in env then env[s] else Lookup(db, ("", s))) == [One(x, i)]
    ensures EvalRows(lib, db, env, [], n) == [One(x, i)]
  {
    var t := One(x, i);
    var fs := EvalF(lib, db, env, [], Stored(s));
    assert fs == [[Binding(s, t, false)]];
    assert [Stored(s)][1..] == [];
    ProductUnits(fs);
    assert EvalFroms(lib, db, env, [], n.sources) == fs;
    assert EvalKept(lib, db, env, [], n) == fs;
    assert !HasAgg(Col(None, x));
    assert EvalGroups(lib, db, env, [], n) == Singles(fs);
    assert Singles(fs) == [[[Binding(s, t, false)]]];
    ColumnOf(lib, db, env, s, x, i);
  }

  lemma SelfNamedAnswer(lib: Library, s: string, x: string, i: int)
    ensures Answer(lib, map[("", s) := [One(x, i)]], SelfNamed(s, x)) == [One(x, i)]
  {
    var db: Tables := map[("", s) := [One(x, i)]];
    var none: Env := map[];
    var q := SelfNamed(s, x);
    FromStored(lib, db, none, s, x, i, SelfBody(s, x));
    assert EvalQ(lib, db, none, [], SelfBody(s, x)) == [One(x, i)];
    var env: Env := none[s := [One(x, i)]];
    assert q.ctes[1..] == [];
    assert EvalCtes(lib, db, env, [], q.ctes[1..]) == env;
    assert EvalCtes(lib, db, none, [], q.ctes) == env;
    FromStored(lib, db, env, s, x, i, q);
    assert EvalQ(lib, db, none, [], q) == EvalRows(lib, db, env, [], q);
  }

  // ----- counts that see whole rows -----

  /** SELECT COUNT(DISTINCT t.*) FROM t, or with `inner` given, SELECT COUNT(inner(t.*)) FROM t */
  function StarCount(t: string, inner: Option<string>): Node {
    var star := Star(Some(t));
    Plain([], [if inner.None? then Count(true, star) else Count(false, Call(inner.value, false, [star]))], [Stored(t)])
  }

  lemma StarCountNodes(t: string, inner: Option<string>)
    ensures var q := StarCount(t, inner);
            var n := q.projs[0];
            Nodes(q) == {q, Stored(t)} + Nodes(n) && Nodes(n) == {n, n.arg, Star(Some(t))}
  {
    var q := StarCount(t, inner);
    ShortKids(q);
    assert Kids(q) == [q.projs[0], Stored(t)];
    CountNodes(q, q.projs[0], Star(Some(t)), Stored(t));
  }

  lemma CountNodes(q: Node, n: Node, s: Node, t: Node)
    requires Kids(q) == [n, t] && n.Count? && s.Star? && t.Table?
    requires n.arg == s || (n.arg.Call? && n.arg.args == [s])
    ensures Nodes(q) == {q, t} + Nodes(n) && Nodes(n) == {n, n.arg, s}
  {
    NodesOfLeaf(s);
    NodesOfLeaf(t);
    if n.arg.Call? {
      assert Kids(n.arg) == [s];
      NodesOf1(n.arg, s);
    }
    assert Kids(n) == [n.arg];
    NodesOf1(n, n.arg);
    NodesOf2(q, n, t);
    hide Nodes, Kids;
    assert Nodes(n.arg) == {n.arg, s};
    assert {n} + {n.arg, s} == {n, n.arg, s};
    Enclose(q, Nodes(n), t);
  }

  lemma Enclose<T>(q: T, below: set<T>, t: T)
    ensures {q} + (below + {t}) == {q, t} + below
  {
  }

  lemma {:induction false} VisitAllSource(ctx: Node, ns: seq<Node>, anc: seq<Node>, v: Visited) returns (k: Node)
    requires Under(ns, ctx) && v in VisitAll(ctx, ns, anc)
    ensures k in ns && v in Visit(k, anc)
  {
    if v in Visit(ns[0], anc) { k := ns[0]; } else { k := VisitAllSource(ctx, ns[1..], anc, v); }
  }

  lemma HeldPair(q: Node, n: Node, t: Node)
    requires Kids(q) == [n, t] && n.Count? && !q.Star?
    requires forall m | m in Nodes(n) :: !m.Select?
    requires forall m | m in Nodes(t) :: !m.Star?
    ensures StarsHeld(q, [])
  {
    CountHolds(n, [q] + []);
    KidsSmaller(q);
    VisitMeetsNodes(t, [q] + []);
    forall v | v in Visit(q, []) && v.node.Star? ensures !StarEscapes(v.anc) {
      var k := VisitAllSource(q, Kids(q), [q] + [], v);
    }
  }

  /** Both forms pass every check, the star ban included. */
  lemma StarCountAccepted(p: Policy, t: string, inner: Option<string>)
    requires t in p.allowed && t != "" && !StartsWith(t, "pg_")
    requires inner.Some? ==> !Denied(p.deny, inner.value)
    ensures Accepts(p, StarCount(t, inner))
  {
    var q := StarCount(t, inner);
    StarCountNodes(t, inner);
    NodesOfLeaf(Stored(t));
    ShortKids(q);
    assert Kids(q) == [q.projs[0], Stored(t)];
    hide Nodes, Kids;
    HeldPair(q, q.projs[0], Stored(t));
    assert ProjectsColumns(TableNames(q), q);
    hide ProjectsColumns, TableNames;
    AcceptedByNodes(p, q);
  }

  function Two(x: string, y: string, i: int): Tuple { [Field(x, Int(0)), Field(y, Int(i))] }

  /** Table `t` with two equal rows, before and after a column `y` is added that tells them apart. */
  function Narrow(t: string, x: string): Tables { map[("", t) := [One(x, 0), One(x, 0)]] }

  function Wide(t: string, x: string, y: string): Tables { map[("", t) := [Two(x, y, 1), Two(x, y, 2)]] }

  lemma WideExtends(t: string, x: string, y: string)
    ensures RelExtended(Lookup(Narrow(t, x), ("", t)), Lookup(Wide(t, x, y), ("", t)), {y})
  {
    assert Two(x, y, 1)[..1] == One(x, 0) && Two(x, y, 2)[..1] == One(x, 0);
  }

  lemma StarCountUnmentioned(t: string, inner: Option<string>, y: string)
    ensures Unmentioned(StarCount(t, inner), {y})
  {
    StarCountNodes(t, inner);
    hide Nodes;
  }

  /** The new column changes COUNT(DISTINCT t.*), which never mentions it. */
  lemma CountDistinctSeesNewColumns(lib: Library, t: string, x: string, y: string)
    ensures RelExtended(Lookup(Narrow(t, x), ("", t)), Lookup(Wide(t, x, y), ("", t)), {y})
    ensures Unmentioned(StarCount(t, None), {y})
    ensures Answer(lib, Narrow(t, x), StarCount(t, None)) != Answer(lib, Wide(t, x, y), StarCount(t, None))
  {
    WideExtends(t, x, y);
    StarCountUnmentioned(t, None, y);
    StarCountAnswer(lib, t, One(x, 0), One(x, 0), None);
    StarCountAnswer(lib, t, Two(x, y, 1), Two(x, y, 2), None);
    DedupPair(Row(One(x, 0)), Row(One(x, 0)));
    assert Two(x, y, 1)[1] != Two(x, y, 2)[1];
    DedupPair(Row(Two(x, y, 1)), Row(Two(x, y, 2)));
  }

  /** A function that is NULL on one-column rows. */
  function Picky(): Library {
    Library((f: string, vs: seq<Value>) => if |vs| == 1 && vs[0].Row? && |vs[0].fields| == 1 then Null else Int(0),
            (f: string, vs: seq<Value>) => Null,
            (f: string, v: Value, rows: seq<seq<Value>>) => Null,
            (u: Value, v: Value) => false)
  }

  /** Without DISTINCT the same leak goes through any function of the row: COUNT skips its NULLs. */
  lemma CountOfFunctionSeesNewColumns(f: string, t: string, x: string, y: string)
    ensures RelExtended(Lookup(Narrow(t, x), ("", t)), Lookup(Wide(t, x, y), ("", t)), {y})
    ensures Unmentioned(StarCount(t, Some(f)), {y})
    ensures Answer(Picky(), Narrow(t, x), StarCount(t, Some(f))) != Answer(Picky(), Wide(t, x, y), StarCount(t, Some(f)))
  {
    WideExtends(t, x, y);
    StarCountUnmentioned(t, Some(f), y);
    StarCountAnswer(Picky(), t, One(x, 0), One(x, 0), Some(f));
    StarCountAnswer(Picky(), t, Two(x, y, 1), Two(x, y, 2), Some(f));
    CountPair(Null, Null);
    CountPair(Int(0), Int(0));
  }

  lemma CountPair(u: Value, v: Value)
    ensures CountOf(false, [u, v]) == Int((if IsNull(u) then 0 else 1) + (if IsNull(v) then 0 else 1))
  {
    assert [u, v][1..] == [v] && [v][1..] == [];
    assert NonNull([v]) == (if IsNull(v) then [] else [v]) + NonNull([]);
  }

  lemma AllNonNull(vs: seq<Value>)
    requires forall i | 0 <= i < |vs| :: !IsNull(vs[i])
    ensures NonNull(vs) == vs
  {
  }

  lemma DedupPair(u: Value, v: Value)
    requires !IsNull(u) && !IsNull(v)
    ensures CountOf(true, [u, v]) == Int(if u == v then 1 else 2)
  {
    AllNonNull([u, v]);
    assert [u, v][..1] == [u] && [u][..0] == [];
    assert Dedup([u]) == [u];
  }

  ghost function RowValue(lib: Library, r: Tuple, inner: Option<string>): Value {
    if inner.None? then Row(r) else lib.scalar(inner.value, [Row(r)])
  }

  lemma StarIsRow(lib: Library, db: Tables, env: Env, t: string, r: Tuple)
    ensures EvalE(lib, db, env, [], [[Binding(t, r, false)]], Star(Some(t))) == Row(r)
  {
    var f := [Binding(t, r, false)];
    assert f[1..] == [] && [f] + [] == [f];
    assert RowMatches(f, t) == [Row(r)] + RowMatches(f[1..], t);
  }

  lemma CountArgument(lib: Library, db: Tables, env: Env, t: string, r: Tuple, inner: Option<string>)
    ensures EvalE(lib, db, env, [], [[Binding(t, r, false)]], StarCount(t, inner).projs[0].arg) == RowValue(lib, r, inner)
  {
    StarIsRow(lib, db, env, t, r);
    if inner.Some? {
      var args := [Star(Some(t))];
      assert args[1..] == [];
      assert EvalList(lib, db, env, [], [[Binding(t, r, false)]], args) == [Row(r)];
    }
  }

  lemma {:induction false} ProductUnits(fs: seq<Frame>)
    ensures Product(fs, [[]]) == fs
  {
    if fs != [] {
      ProductUnits(fs[1..]);
      assert fs[0] + [] == fs[0];
    }
  }

  lemma StarCountGroup(lib: Library, db: Tables, t: string, rows: Rel, inner: Option<string>)
    requires Lookup(db, ("", t)) == rows
    ensures EvalGroups(lib, db, map[], [], StarCount(t, inner)) == [Bind(t, rows)]
  {
    var none: Env := map[];
    var q := StarCount(t, inner);
    assert q.sources[1..] == [];
    ProductUnits(Bind(t, rows));
    assert EvalFroms(lib, db, none, [], q.sources) == Bind(t, rows);
    assert HasAgg(q.projs[0]) && Grouped(q);
    assert EvalKept(lib, db, none, [], q) == Bind(t, rows);
    assert EvalParts(lib, db, none, [], q) == [Bind(t, rows)];
  }

  lemma StarCountAnswer(lib: Library, t: string, r: Tuple, u: Tuple, inner: Option<string>)
    ensures Answer(lib, map[("", t) := [r, u]], StarCount(t, inner))
         == [[Field("?column?", CountOf(inner.None?, [RowValue(lib, r, inner), RowValue(lib, u, inner)]))]]
  {
    var db: Tables := map[("", t) := [r, u]];
    var none: Env := map[];
    var q := StarCount(t, inner);
    var n := q.projs[0];
    var fs := Bind(t, [r, u]);
    StarCountGroup(lib, db, t, [r, u], inner);
    CountArgument(lib, db, none, t, r, inner);
    CountArgument(lib, db, none, t, u, inner);
    assert EvalEach(lib, db, none, [], fs, n.arg) == [RowValue(lib, r, inner), RowValue(lib, u, inner)];
    assert EvalE(lib, db, none, [], fs, n) == CountOf(n.distinct, EvalEach(lib, db, none, [], fs, n.arg));
    assert [n][1..] == [];
    assert EvalTuple(lib, db, none, [], fs, q.projs) == [Field("?column?", EvalE(lib, db, none, [], fs, n))];
    assert EvalRows(lib, db, none, [], q) == [EvalTuple(lib, db, none, [], fs, q.projs)];
    assert EvalQ(lib, db, none, [], q) == EvalRows(lib, db, none, [], q);
  }

  // ----- the other whole-row forms -----

  /** SELECT x FROM t NATURAL JOIN u */
  function NaturalQuery(t: string, u: string, x: string): Node {
    Plain([], [Col(None, x)], [Join(true, Inner, Stored(t), Stored(u), None)])
  }

  /** SELECT x FROM t WHERE f(t) */
  function Filtered(f: string, t: string, x: string): Node {
    Select([], false, false, [Col(None, x)], [Stored(t)], Some(Call(f, false, [Col(None, t)])), [], None, [], None, None)
  }

  lemma NaturalNodes(t: string, u: string, x: string)
    ensures var q := NaturalQuery(t, u, x); Nodes(q) == {q, q.sources[0], Col(None, x), Stored(t), Stored(u)}
  {
    var q := NaturalQuery(t, u, x);
    var j := q.sources[0];
    ShortKids(q);
    assert Kids(j) == [Stored(t), Stored(u)] && Kids(q) == [Col(None, x), j];
    JoinQueryNodes(q, j, Col(None, x), Stored(t), Stored(u));
  }

  lemma JoinQueryNodes(q: Node, j: Node, col: Node, t: Node, u: Node)
    requires Kids(q) == [col, j] && Kids(j) == [t, u] && col.Col? && t.Table? && u.Table?
    ensures Nodes(q) == {q, j, col, t, u}
  {
    NodesOfLeaf(col);
    NodesOfLeaf(t);
    NodesOfLeaf(u);
    NodesOf2(j, t, u);
    NodesOf2(q, col, j);
    hide Nodes, Kids;
    FiveNested(q, col, j, t, u);
  }

  lemma FiveNested<T>(q: T, col: T, j: T, t: T, u: T)
    ensures {q} + ({col} + ({j} + ({t} + {u}))) == {q, j, col, t, u}
  {
  }

  lemma FilteredNodes(f: string, t: string, x: string)
    ensures var q := Filtered(f, t, x); Nodes(q) == {q, q.cond.value, Col(None, x), Col(None, t), Stored(t)}
  {
    var q := Filtered(f, t, x);
    var c := q.cond.value;
    ShortKids(q);
    assert Kids(c) == [Col(None, t)] && Kids(q) == [Col(None, x), Stored(t), c];
    FilterNodes(q, Col(None, x), Stored(t), c, Col(None, t));
  }

  lemma FilterNodes(q: Node, col: Node, t: Node, c: Node, row: Node)
    requires Kids(q) == [col, t, c] && Kids(c) == [row] && col.Col? && t.Table? && row.Col?
    ensures Nodes(q) == {q, c, col, row, t}
  {
    NodesOfLeaf(col);
    NodesOfLeaf(t);
    NodesOfLeaf(row);
    NodesOf1(c, row);
    NodesOf3(q, col, t, c);
    hide Nodes, Kids;
    FiveNested(q, col, t, c, row);
  }

  /** Both pass every check, the star ban included. */
  lemma NaturalAccepted(p: Policy, t: string, u: string, x: string)
    requires t in p.allowed && u in p.allowed && t != "" && u != "" && !StartsWith(t, "pg_") && !StartsWith(u, "pg_")
    requires x != t && x != u && x !in p.deny.keywords
    ensures Accepts(p, NaturalQuery(t, u, x))
  {
    var q := NaturalQuery(t, u, x);
    NaturalNodes(t, u, x);
    hide Nodes;
    NoStarsHeld(q);
    ProjectsOne(q, q, x);
    hide ProjectsColumns, TableNames;
    AcceptedByNodes(p, q);
  }

  lemma FilteredAccepted(p: Policy, f: string, t: string, x: string)
    requires t in p.allowed && t != "" && !StartsWith(t, "pg_") && !Denied(p.deny, f)
    requires x != t && x !in p.deny.keywords && t !in p.deny.keywords
    ensures Accepts(p, Filtered(f, t, x))
  {
    var q := Filtered(f, t, x);
    FilteredNodes(f, t, x);
    hide Nodes;
    NoStarsHeld(q);
    ProjectsOne(q, q, x);
    hide ProjectsColumns, TableNames;
    AcceptedByNodes(p, q);
  }

  /** A column `y` added to both tables, never mentioned, becomes a join column of NATURAL JOIN. */
  lemma NaturalJoinSeesNewColumns(lib: Library, t: string, u: string, x: string, y: string, z: string)
    requires t != u && x != y && x != z && y != z
    ensures var a: Tables, b: Tables := map[("", t) := [One(x, 0)], ("", u) := [One(z, 0)]],
                                        map[("", t) := [Two(x, y, 1)], ("", u) := [Two(z, y, 2)]];
            && RelExtended(Lookup(a, ("", t)), Lookup(b, ("", t)), {y}) && RelExtended(Lookup(a, ("", u)), Lookup(b, ("", u)), {y})
            && Unmentioned(NaturalQuery(t, u, x), {y})
            && Answer(lib, a, NaturalQuery(t, u, x)) != Answer(lib, b, NaturalQuery(t, u, x))
  {
    JoinExtends(t, u, x, y, z);
    NaturalUnmentioned(t, u, x, y);
    hide Answer, NaturalQuery, RelExtended, Unmentioned;
    NaturalCount(lib, t, u, x, One(x, 0), One(z, 0));
    NaturalCount(lib, t, u, x, Two(x, y, 1), Two(z, y, 2));
    NaturalTells(t, u, x, y, z);
  }

  lemma JoinExtends(t: string, u: string, x: string, y: string, z: string)
    requires t != u
    ensures var a: Tables, b: Tables := map[("", t) := [One(x, 0)], ("", u) := [One(z, 0)]],
                                        map[("", t) := [Two(x, y, 1)], ("", u) := [Two(z, y, 2)]];
            RelExtended(Lookup(a, ("", t)), Lookup(b, ("", t)), {y}) && RelExtended(Lookup(a, ("", u)), Lookup(b, ("", u)), {y})
  {
    assert Two(x, y, 1)[..1] == One(x, 0) && Two(z, y, 2)[..1] == One(z, 0);
  }

  lemma NaturalUnmentioned(t: string, u: string, x: string, y: string)
    requires x != y
    ensures Unmentioned(NaturalQuery(t, u, x), {y})
  {
    NaturalNodes(t, u, x);
    hide Nodes;
  }

  /** The tuples join before the column is there and differ in it afterwards. */
  lemma NaturalTells(t: string, u: string, x: string, y: string, z: string)
    requires x != z
    ensures NaturalMatch([Binding(t, One(x, 0), false)], [Binding(u, One(z, 0), false)])
    ensures !NaturalMatch([Binding(t, Two(x, y, 1), false)], [Binding(u, Two(z, y, 2), false)])
  {
    var f, g := Binding(t, Two(x, y, 1), false), Binding(u, Two(z, y, 2), false);
    assert f in [f] && g in [g] && f.tuple[1].name == g.tuple[1].name && f.tuple[1].v != g.tuple[1].v;
  }

  lemma NaturalCount(lib: Library, t: string, u: string, x: string, r: Tuple, o: Tuple)
    requires t != u
    ensures |Answer(lib, map[("", t) := [r], ("", u) := [o]], NaturalQuery(t, u, x))| ==
            if NaturalMatch([Binding(t, r, false)], [Binding(u, o, false)]) then 1 else 0
  {
    var db: Tables := map[("", t) := [r], ("", u) := [o]];
    var none: Env := map[];
    var q := NaturalQuery(t, u, x);
    var j := q.sources[0];
    var f, g := [Binding(t, r, false)], [Binding(u, o, false)];
    assert EvalF(lib, db, none, [], Stored(t)) == [f] && EvalF(lib, db, none, [], Stored(u)) == [g];
    assert EvalF(lib, db, none, [], j) == EvalLeftRows(lib, db, none, [], j, [f], [g]);
    hide EvalF, EvalLeftRows, NaturalMatch;
    NaturalPair(lib, db, j, f, g);
    SourceKept(lib, db, q, j);
    AnswerSize(lib, db, q);
  }

  lemma NaturalPair(lib: Library, db: Tables, j: Node, f: Frame, g: Frame)
    requires j.Join? && j.natural && j.side == Inner
    ensures EvalLeftRows(lib, db, map[], [], j, [f], [g]) == if NaturalMatch(f, g) then [f + g] else []
  {
    var none: Env := map[];
    var pairs := Probe(f, [g]);
    assert pairs == [f + g];
    var flags := EvalMatches(lib, db, none, [], j, f, [g]);
    assert flags == [NaturalMatch(f, g)];
    assert pairs[1..] == [] && flags[1..] == [];
    assert Keep(pairs, flags) == if NaturalMatch(f, g) then [f + g] else [];
    assert [f][1..] == [];
    assert EvalLeftRows(lib, db, none, [], j, [f][1..], [g]) == [];
  }

  lemma SourceKept(lib: Library, db: Tables, q: Node, j: Node)
    requires q.Select? && q.sources == [j] && q.cond.None?
    ensures EvalKept(lib, db, map[], [], q) == EvalF(lib, db, map[], [], j)
  {
    assert q.sources[1..] == [];
    ProductUnits(EvalF(lib, db, map[], [], j));
    assert EvalFroms(lib, db, map[], [], q.sources) == EvalF(lib, db, map[], [], j);
  }

  /** A SELECT of one column, with no clause beyond WHERE, has a row for each it keeps. */
  lemma AnswerSize(lib: Library, db: Tables, q: Node)
    requires q.Select? && q.ctes == [] && q.keys == [] && q.having.None? && q.order == [] && !q.distinct && q.limit.None?
    requires |q.projs| == 1 && q.projs[0].Col?
    ensures |Answer(lib, db, q)| == |EvalKept(lib, db, map[], [], q)|
  {
    hide EvalKept, EvalTuple;
    var none: Env := map[];
    assert EvalCtes(lib, db, none, [], q.ctes) == none;
    assert !Grouped(q);
    assert EvalGroups(lib, db, none, [], q) == Singles(EvalKept(lib, db, none, [], q));
    assert |EvalRows(lib, db, none, [], q)| == |EvalGroups(lib, db, none, [], q)|;
    assert EvalQ(lib, db, none, [], q) == EvalRows(lib, db, none, [], q);
  }

  /** A function that is true of one-column rows only. */
  function Narrowing(): Library {
    Library((f: string, vs: seq<Value>) => Bool(|vs| == 1 && vs[0].Row? && |vs[0].fields| == 1),
            (f: string, vs: seq<Value>) => Null,
            (f: string, v: Value, rows: seq<seq<Value>>) => Null,
            (u: Value, v: Value) => false)
  }

  /** The new column reaches the condition through the row alias, which the checks look for only in
      projections. */
  lemma RowFilterSeesNewColumns(f: string, t: string, x: string, y: string)
    requires t != x && t != y && x != y
    ensures RelExtended(Lookup(Narrow(t, x), ("", t)), Lookup(Wide(t, x, y), ("", t)), {y})
    ensures Unmentioned(Filtered(f, t, x), {y})
    ensures Answer(Narrowing(), Narrow(t, x), Filtered(f, t, x)) != Answer(Narrowing(), Wide(t, x, y), Filtered(f, t, x))
  {
    WideExtends(t, x, y);
    FilteredUnmentioned(f, t, x, y);
    NoFieldMatches(One(x, 0), t);
    NoFieldMatches(Two(x, y, 1), t);
    NoFieldMatches(Two(x, y, 2), t);
    hide Answer, Filtered, RelExtended, Unmentioned;
    FilteredCount(f, t, x, One(x, 0), One(x, 0));
    FilteredCount(f, t, x, Two(x, y, 1), Two(x, y, 2));
  }

  lemma FilteredUnmentioned(f: string, t: string, x: string, y: string)
    requires t != y && x != y
    ensures Unmentioned(Filtered(f, t, x), {y})
  {
    FilteredNodes(f, t, x);
    hide Nodes;
  }

  lemma {:induction false} FilteredCount(f: string, t: string, x: string, r: Tuple, o: Tuple)
    requires FieldMatches(r, t) == [] && FieldMatches(o, t) == [] && |r| == |o|
    ensures |Answer(Narrowing(), map[("", t) := [r, o]], Filtered(f, t, x))| == if |r| == 1 then 2 else 0
  {
    var lib, db: Tables, none: Env := Narrowing(), map[("", t) := [r, o]], map[];
    var q := Filtered(f, t, x);
    var fs := Bind(t, [r, o]);
    ProductUnits(fs);
    assert q.sources[1..] == [];
    assert EvalFroms(lib, db, none, [], q.sources) == fs;
    TwoKept(lib, db, f, t, r, o);
    AnswerSize(lib, db, q);
    hide EvalFlags, Answer, FieldMatches;
  }

  lemma KeepBoth<T>(x: T, y: T, b: bool)
    ensures |Keep([x, y], [b, b])| == if b then 2 else 0
  {
    assert [x, y][1..] == [y] && [b, b][1..] == [b];
    assert [y][1..] == [] && [b][1..] == [];
    assert Keep([y], [b]) == if b then [y] else [];
  }

  lemma {:induction false} TwoKept(lib: Library, db: Tables, f: string, t: string, r: Tuple, o: Tuple)
    requires lib == Narrowing() && FieldMatches(r, t) == [] && FieldMatches(o, t) == [] && |r| == |o|
    ensures var fs := Bind(t, [r, o]);
            |Keep(fs, EvalFlags(lib, db, map[], [], fs, Call(f, false, [Col(None, t)])))| == if |r| == 1 then 2 else 0
  {
    var none: Env := map[];
    var c := Call(f, false, [Col(None, t)]);
    var fs := Bind(t, [r, o]);
    FilterHolds(lib, db, f, t, r);
    FilterHolds(lib, db, f, t, o);
    hide EvalE;
    var vs := EvalEach(lib, db, none, [], fs, c);
    assert fs[0] == [Binding(t, r, false)] && fs[1] == [Binding(t, o, false)];
    assert vs[0] == EvalE(lib, db, none, [], [fs[0]], c) && vs[1] == EvalE(lib, db, none, [], [fs[1]], c);
    var flags := EvalFlags(lib, db, none, [], fs, c);
    assert flags == [|r| == 1, |r| == 1];
    assert fs == [fs[0], fs[1]];
    KeepBoth(fs[0], fs[1], |r| == 1);
  }

  lemma {:induction false} FilterHolds(lib: Library, db: Tables, f: string, t: string, r: Tuple)
    requires lib == Narrowing() && FieldMatches(r, t) == []
    ensures EvalE(lib, db, map[], [], [[Binding(t, r, false)]], Call(f, false, [Col(None, t)])) == Bool(|r| == 1)
  {
    var none: Env := map[];
    var g := [Binding(t, r, false)];
    assert g[1..] == [] && [g] + [] == [g];
    assert ColMatches(g, None, t) == FieldMatches(r, t) + ColMatches(g[1..], None, t);
    assert RowMatches(g, t) == [Row(r)] + RowMatches(g[1..], t);
    var here: Scope := [g];
    assert here[1..] == [];
    assert ResolveCol(here[1..], t) == None;
    assert ResolveCol(here, t) == None && ResolveRow(here, t) == Some(Row(r));
    assert EvalE(lib, db, none, [], [g], Col(None, t)) == Resolve(here, None, t);
    var args := [Col(None, t)];
    assert args[1..] == [];
    assert EvalList(lib, db, none, [], [g], args) == [Row(r)];
  }

  /** With no row asked for, every statement answers alike in every database. */
  lemma LimitZeroSeesNothing(lib: Library, a: Tables, b: Tables, n: Node)
    requires IsQuery(n)
    ensures Answer(lib, a, InjectLimit(n, 0)) == Answer(lib, b, InjectLimit(n, 0)) == []
  {
    InjectedLimitCuts(lib, a, n, 0);
    InjectedLimitCuts(lib, b, n, 0);
  }
}
