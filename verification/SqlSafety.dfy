/** What acceptance guarantees about execution.

    The statement that reaches the server is the accepted tree with its root LIMIT replaced, so every
    theorem is about `InjectLimit(root, k)`, for any `k`. */
module SqlSafety {
  import opened Prelude
  import opened SqlTree
  import opened SqlScope
  import opened SqlEval
  import opened SqlRun
  import opened SqlReadOnly
  import opened SqlStable
  import opened SqlValidator

  function WithLimit(n: Node, limit: Option<Node>): Node
    requires IsQuery(n)
  {
    n.(limit := limit)
  }

  /** Replace any LIMIT on the root by the literal `k`. */
  function InjectLimit(n: Node, k: int): Node
    requires IsQuery(n)
  {
    WithLimit(n, Some(Lit(Int(k))))
  }

  /** The integer LIMIT on the root; absent or non-literal limits read as none. */
  function ExtractLimit(n: Node): Option<int>
    requires IsQuery(n)
  {
    if n.limit.Some? && n.limit.value.Lit? && n.limit.value.v.Int? then Some(n.limit.value.v.i) else None
  }

  function Unlimited(n: Node): Node
    requires IsQuery(n)
  {
    WithLimit(n, None)
  }

  function Answer(lib: Library, db: Tables, n: Node): Rel { EvalQ(lib, db, map[], [], n) }

  /** An injected limit cuts the unlimited result, whatever LIMIT the root had. */
  lemma InjectedLimitCuts(lib: Library, db: Tables, n: Node, k: nat)
    requires IsQuery(n)
    ensures Answer(lib, db, InjectLimit(n, k)) == Take(Answer(lib, db, Unlimited(n)), k)
    ensures ExtractLimit(InjectLimit(n, k)) == Some(k)
    ensures ExtractLimit(n).Some? ==> Answer(lib, db, n) == Take(Answer(lib, db, Unlimited(n)), Max(0, ExtractLimit(n).value))
  {
    var none: Env := map[];
    var env := EvalCtes(lib, db, none, [], n.ctes);
    BodyIgnoresLimit(lib, db, env, n, Some(Lit(Int(k))));
    BodyIgnoresLimit(lib, db, env, n, None);
    LiteralLimit(lib, db, env, k);
    if ExtractLimit(n).Some? { LiteralLimit(lib, db, env, ExtractLimit(n).value); }
    hide EvalBody, EvalCtes, EvalLimit;
  }

  lemma LiteralLimit(lib: Library, db: Tables, env: Env, i: int)
    ensures EvalLimit(lib, db, env, Some(Lit(Int(i)))) == Some(Int(i)) && EvalLimit(lib, db, env, None) == None
  {
    assert Kids(Lit(Int(i))) == [];
  }

  /** The rows before the LIMIT do not depend on it. */
  lemma BodyIgnoresLimit(lib: Library, db: Tables, env: Env, n: Node, limit: Option<Node>)
    requires IsQuery(n)
    ensures EvalBody(lib, db, env, [], WithLimit(n, limit)) == EvalBody(lib, db, env, [], n)
  {
    if n.Select? { SelectIgnoresLimit(lib, db, env, n, limit); }
  }

  lemma SelectIgnoresLimit(lib: Library, db: Tables, env: Env, n: Node, limit: Option<Node>)
    requires n.Select?
    ensures EvalRows(lib, db, env, [], WithLimit(n, limit)) == EvalRows(lib, db, env, [], n)
  {
    var a := WithLimit(n, limit);
    assert Grouped(a) == Grouped(n);
    assert EvalKept(lib, db, env, [], a) == EvalKept(lib, db, env, [], n);
    assert EvalParts(lib, db, env, [], a) == EvalParts(lib, db, env, [], n);
    hide EvalParts;
    assert EvalGroups(lib, db, env, [], a) == EvalGroups(lib, db, env, [], n);
    var groups := EvalGroups(lib, db, env, [], n);
    assert EvalTuples(lib, db, env, [], groups, a) == EvalTuples(lib, db, env, [], groups, n);
  }

  // ----- from the walk to the nodes -----

  lemma AcceptedNodes(p: Policy, root: Node)
    requires Accepts(p, root)
    ensures AllHarmless(p.deny, root)
    ensures forall m | m in Nodes(root) && m.Table? :: !OffLimits(m) && m.name != ""
    ensures p.banStar ==> forall m | m in Nodes(root) && m.Select? :: ProjectsColumns(TableNames(root), m)
  {
    VisitMeetsNodes(root, []);
    forall m | m in Nodes(root)
      ensures Harmless(p.deny, m) && (m.Table? ==> !OffLimits(m) && m.name != "")
      ensures p.banStar && m.Select? ==> ProjectsColumns(TableNames(root), m)
    {
      var v :| v in Visit(root, []) && v.node == m;
      assert NodeAccepted(p, root, v);
    }
  }

  lemma InjectedNodes(n: Node, k: int)
    requires IsQuery(n)
    ensures Nodes(InjectLimit(n, k)) <= Nodes(n) + {InjectLimit(n, k), Lit(Int(k))}
  {
    var e := InjectLimit(n, k);
    KidsSmaller(n);
    KidsSmaller(e);
    forall m | m in Nodes(e) ensures m in Nodes(n) + {e, Lit(Int(k))} {
      if m != e {
        var kid := NodesAllSource(e, Kids(e), m);
        if kid == Lit(Int(k)) {
          assert NodesAll(kid, Kids(kid)) == {};
        } else {
          assert kid in Kids(n) by {
            assert kid in Ctes(e) || kid in Rest(e);
          }
          KidNodes(n, kid);
        }
      }
    }
  }

  lemma {:induction false} NodesAllSource(ctx: Node, ns: seq<Node>, m: Node) returns (k: Node)
    requires Under(ns, ctx) && m in NodesAll(ctx, ns)
    ensures k in ns && m in Nodes(k)
  {
    if m in Nodes(ns[0]) { k := ns[0]; } else { k := NodesAllSource(ctx, ns[1..], m); }
  }

  lemma InjectedHarmless(d: DenyLists, n: Node, k: int)
    requires IsQuery(n) && AllHarmless(d, n)
    ensures AllHarmless(d, InjectLimit(n, k))
  {
    InjectedNodes(n, k);
    SelfHarmless(d, n);
  }

  /** Read-only execution: running an accepted statement changes no table, no sequence and nothing else,
      and returns what the pure evaluator computes. */
  lemma ExecutionOnlyReads(p: Policy, root: Node, s: Server, fuel: nat, w: World, k: nat)
    requires Accepts(p, root) && Honest(s, p.deny)
    ensures Run(s, fuel, w, InjectLimit(root, k)) == Out(Take(Answer(s.lib, w.tables, Unlimited(root)), k), w)
  {
    AcceptedNodes(p, root);
    InjectedHarmless(p.deny, root, k);
    ReadsQ(s, p.deny, fuel, w, map[], [], InjectLimit(root, k));
    InjectedLimitCuts(s.lib, w.tables, root, k);
  }

  // ----- non-interference -----

  lemma {:induction false} PgFreeAppend(ctx: Node, xs: seq<Node>, ys: seq<Node>, b: set<string>)
    requires Under(xs, ctx) && Under(ys, ctx)
    ensures Under(xs + ys, ctx)
    ensures PgFreeAll(ctx, xs + ys, b) == PgFreeAll(ctx, xs, b) + PgFreeAll(ctx, ys, b)
  {
    if xs == [] {
      assert xs + ys == ys;
    } else {
      PgFreeAppend(ctx, xs[1..], ys, b);
      assert (xs + ys)[1..] == xs[1..] + ys;
    }
  }

  lemma {:induction false} PgFreeContext(c1: Node, c2: Node, ns: seq<Node>, b: set<string>)
    requires Under(ns, c1) && Under(ns, c2)
    ensures PgFreeAll(c1, ns, b) == PgFreeAll(c2, ns, b)
  {
    if ns != [] { PgFreeContext(c1, c2, ns[1..], b); }
  }

  lemma {:induction false} PgFreeCtesContext(c1: Node, c2: Node, ns: seq<Node>, b: set<string>)
    requires Under(ns, c1) && Under(ns, c2)
    ensures PgFreeCtes(c1, ns, b) == PgFreeCtes(c2, ns, b)
  {
    if ns != [] { PgFreeCtesContext(c1, c2, ns[1..], b + AliasOf(ns[0])); }
  }

  /** The children of a query other than its `WITH` list and its LIMIT. */
  function Core(n: Node): seq<Node>
    requires IsQuery(n)
  {
    if n.Select? then n.projs + n.sources + OptSeq(n.cond) + n.keys + OptSeq(n.having) + n.order else [n.left, n.right] + n.order
  }

  lemma CoreRest(n: Node)
    requires IsQuery(n)
    ensures Rest(n) == Core(n) + OptSeq(n.limit)
  {
  }

  lemma UnderAppend(xs: seq<Node>, ys: seq<Node>, ctx: Node)
    requires Under(xs + ys, ctx)
    ensures Under(xs, ctx) && Under(ys, ctx)
  {
    forall i | 0 <= i < |xs| ensures xs[i] < ctx { assert (xs + ys)[i] == xs[i]; }
    forall i | 0 <= i < |ys| ensures ys[i] < ctx { assert (xs + ys)[|xs| + i] == ys[i]; }
  }

  /** Replacing the root LIMIT adds no table reference. */
  lemma InjectedFree(n: Node, k: int, b: set<string>)
    requires IsQuery(n)
    ensures forall t | t in PgFree(InjectLimit(n, k), b) :: t in PgFree(n, b)
  {
    var e := InjectLimit(n, k);
    var b1 := b + Aliases(n.ctes);
    KidsSmaller(n);
    KidsSmaller(e);
    CoreRest(n);
    CoreRest(e);
    UnderAppend(Core(n), OptSeq(n.limit), n);
    UnderAppend(Core(e), OptSeq(e.limit), e);
    PgFreeAppend(n, Core(n), OptSeq(n.limit), b1);
    PgFreeAppend(e, Core(e), OptSeq(e.limit), b1);
    PgFreeContext(n, e, Core(n), b1);
    PgFreeCtesContext(n, e, n.ctes, b);
    var lit := Lit(Int(k));
    assert PgFree(lit, b1) == [];
    assert PgFreeAll(e, OptSeq(e.limit), b1) == [];
  }

  /** On a sequential statement the reported names cover every stored table it reads. */
  lemma ReportedCoverReads(root: Node)
    requires Sequential(root, {})
    ensures forall t | t in PgFree(root, {}) :: t.1 in Referenced(root)
  {
    WalkIsTopDown(root, []);
    ScopesAgree(root);
  }

  lemma ReportedAreAllowed(p: Policy, root: Node)
    requires Accepts(p, root)
    ensures Referenced(root) <= p.allowed
  {
    FreeAreAllowed(p, root, Visit(root, []));
  }

  lemma {:induction false} FreeAreAllowed(p: Policy, root: Node, vs: seq<Visited>)
    requires forall v | v in vs :: NodeAccepted(p, root, v)
    ensures Names(WalkFree(vs)) <= p.allowed
  {
    if vs != [] {
      FreeAreAllowed(p, root, vs[1..]);
      assert NodeAccepted(p, root, vs[0]);
      forall x | x in Names(WalkFree(vs)) ensures x in p.allowed {
        var t :| t in WalkFree(vs) && t.1 == x;
        if t in WalkFree(vs[1..]) { assert x in Names(WalkFree(vs[1..])); }
      }
    }
  }

  ghost function TableIds(ns: set<Node>): set<TableId> { set m | m in ns && m.Table? :: (m.schema, m.name) }

  /** How a child list behind a first child splits. */
  lemma HeadFirst(ctx: Node, xs: seq<Node>, ys: seq<Node>)
    requires Under(xs, ctx) && Under(ys, ctx) && xs != []
    ensures Under(xs[1..], ctx) && Under(xs[1..] + ys, ctx) && Under(xs + ys, ctx)
    ensures NodesAll(ctx, xs) == Nodes(xs[0]) + NodesAll(ctx, xs[1..])
    ensures NodesAll(ctx, xs + ys) == Nodes(xs[0]) + NodesAll(ctx, xs[1..] + ys)
  {
    hide Nodes;
    UnderConcat(xs[1..], ys, ctx);
    assert (xs + ys)[0] == xs[0] && (xs + ys)[1..] == xs[1..] + ys;
  }

  lemma {:induction false} NodesAllAppend(ctx: Node, xs: seq<Node>, ys: seq<Node>)
    requires Under(xs, ctx) && Under(ys, ctx)
    ensures Under(xs + ys, ctx)
    ensures NodesAll(ctx, xs + ys) == NodesAll(ctx, xs) + NodesAll(ctx, ys)
    decreases |xs|
  {
    if xs == [] {
      assert xs + ys == ys;
    } else {
      HeadFirst(ctx, xs, ys);
      NodesAllAppend(ctx, xs[1..], ys);
      hide Nodes, NodesAll, Under;
      SetRegroup(Nodes(xs[0]), NodesAll(ctx, xs[1..]), NodesAll(ctx, ys));
    }
  }

  lemma SetRegroup<T>(x: set<T>, y: set<T>, z: set<T>)
    ensures x + (y + z) == x + y + z
  {
  }

  lemma {:induction false} FreeAreTables(n: Node, b: set<string>)
    ensures forall t | t in PgFree(n, b) :: t in TableIds(Nodes(n))
    decreases n
  {
    KidsSmaller(n);
    if n.Table? {
      assert n in Nodes(n);
    } else {
      CtesAreTables(n, Ctes(n), b);
      AllAreTables(n, Rest(n), b + Aliases(Ctes(n)));
      NodesAllAppend(n, Ctes(n), Rest(n));
    }
  }

  lemma {:induction false} CtesAreTables(ctx: Node, cs: seq<Node>, b: set<string>)
    requires Under(cs, ctx)
    ensures forall t | t in PgFreeCtes(ctx, cs, b) :: t in TableIds(NodesAll(ctx, cs))
    decreases ctx, |cs|
  {
    if cs != [] {
      FreeAreTables(cs[0], b);
      CtesAreTables(ctx, cs[1..], b + AliasOf(cs[0]));
    }
  }

  lemma {:induction false} AllAreTables(ctx: Node, ns: seq<Node>, b: set<string>)
    requires Under(ns, ctx)
    ensures forall t | t in PgFreeAll(ctx, ns, b) :: t in TableIds(NodesAll(ctx, ns))
    decreases ctx, |ns|
  {
    if ns != [] {
      FreeAreTables(ns[0], b);
      AllAreTables(ctx, ns[1..], b);
    }
  }

  /** The stored tables a statement may read: those it spells out under a reported name. */
  ghost predicate Readable(root: Node, t: TableId) { t in TableIds(Nodes(root)) && t.1 in Referenced(root) }

  lemma ReadsAreReadable(root: Node)
    requires Sequential(root, {})
    ensures forall t | t in PgFree(root, {}) :: Readable(root, t)
  {
    ReportedCoverReads(root);
    FreeAreTables(root, {});
  }

  /** Non-interference: two worlds that agree on the tables it spells out under reported names give the
      same answer, whatever their other tables, sequences and server identity; and the reported tables are whitelisted. */
  lemma NonInterference(p: Policy, root: Node, s: Server, f1: nat, f2: nat, w1: World, w2: World, k: nat)
    requires Accepts(p, root) && Honest(s, p.deny) && Sequential(root, {})
    requires forall t | Readable(root, t) :: Lookup(w1.tables, t) == Lookup(w2.tables, t)
    ensures Run(s, f1, w1, InjectLimit(root, k)).v == Run(s, f2, w2, InjectLimit(root, k)).v
    ensures Referenced(root) <= p.allowed
  {
    ReportedAreAllowed(p, root);
    SameAnswer(root, Twin(s.lib, w1.tables, w2.tables, {}, {}), k);
    ExecutionOnlyReads(p, root, s, f1, w1, k);
    ExecutionOnlyReads(p, root, s, f2, w2, k);
    InjectedLimitCuts(s.lib, w1.tables, root, k);
    InjectedLimitCuts(s.lib, w2.tables, root, k);
    hide Accepts, Honest, Sequential, Run, Answer, Readable;
  }

  /** On tables that correspond the pure answers are the same. */
  lemma SameAnswer(root: Node, c: Twin, k: nat)
    requires IsQuery(root) && Sequential(root, {}) && Ready(c, InjectLimit(root, k))
    requires forall t | Readable(root, t) :: RelExtended(Lookup(c.a, t), Lookup(c.b, t), c.extra)
    ensures Answer(c.lib, c.a, InjectLimit(root, k)) == Answer(c.lib, c.b, InjectLimit(root, k))
  {
    ReadsAreReadable(root);
    InjectedFree(root, k, {});
    hide Readable, Sequential, PgFree, EvalQ, InjectLimit, RelExtended, Ready;
    var none: Env := map[];
    assert none.Keys == {};
    StableQ(c, none, [], [], InjectLimit(root, k));
  }
}
