/** Column-growth independence: what banning stars and whole-row references buys.

    A column added to a stored table, under a name the statement never mentions, cannot change an
    accepted statement's answer, provided the statement uses none of the four whole-row forms the
    checks do not look at. `SqlGaps` shows that the two COUNT forms are real. */
module SqlGrowth {
  import opened Prelude
  import opened SqlTree
  import opened SqlScope
  import opened SqlEval
  import opened SqlRun
  import opened SqlReadOnly
  import opened SqlStable
  import opened SqlValidator
  import opened SqlSafety

  /** A star reaches the node without passing through a nested query. */
  ghost predicate LooseStar(n: Node)
    decreases n
  {
    KidsSmaller(n);
    n.Star? || (!IsQuery(n) && LooseStarAmong(n, Kids(n)))
  }

  ghost predicate LooseStarAmong(ctx: Node, ns: seq<Node>)
    requires Under(ns, ctx)
    decreases ctx, |ns|
  {
    ns != [] && (LooseStar(ns[0]) || LooseStarAmong(ctx, ns[1..]))
  }

  lemma {:induction false} LooseKid(ctx: Node, ns: seq<Node>, k: Node)
    requires Under(ns, ctx) && k in ns && LooseStar(k)
    ensures LooseStarAmong(ctx, ns)
  {
    if k != ns[0] { LooseKid(ctx, ns[1..], k); }
  }

  lemma {:induction false} ConstantHoldsNoStar(n: Node)
    requires Constant(n)
    ensures !LooseStar(n)
    decreases n, 1
  {
    KidsSmaller(n);
    if !IsQuery(n) { ConstantsHoldNoStar(n, Kids(n)); }
  }

  lemma {:induction false} ConstantsHoldNoStar(ctx: Node, ns: seq<Node>)
    requires Under(ns, ctx) && forall i | 0 <= i < |ns| :: Constant(ns[i])
    ensures !LooseStarAmong(ctx, ns)
    decreases ctx, 0, |ns|
  {
    if ns != [] {
      ConstantHoldsNoStar(ns[0]);
      ConstantsHoldNoStar(ctx, ns[1..]);
    }
  }

  /** Nodes met without entering a projection list. */
  ghost function Outside(n: Node): set<Node>
    decreases n
  {
    KidsSmaller(n);
    {n} + OutsideAll(n, Ctes(n), n) + OutsideAll(n, Rest(n), n)
  }

  ghost function OutsideAll(ctx: Node, ns: seq<Node>, owner: Node): set<Node>
    requires Under(ns, ctx)
    decreases ctx, |ns|
  {
    if ns == [] then {}
    else (if owner.Select? && ns[0] in owner.projs then {} else Outside(ns[0])) + OutsideAll(ctx, ns[1..], owner)
  }

  /** The statement never mentions a column called by a name in `extra`. */
  ghost predicate Unmentioned(root: Node, extra: set<string>) { forall m | m in Nodes(root) && m.Col? :: m.name !in extra }

  ghost predicate NoNaturalJoin(root: Node) { forall m | m in Nodes(root) && m.Join? :: !m.natural }

  /** Inside COUNT a star stands only as the whole argument, without DISTINCT. */
  ghost predicate PlainCounts(root: Node) {
    forall m | m in Nodes(root) && m.Count? :: (!m.distinct && m.arg.Star?) || !LooseStar(m.arg)
  }

  /** Outside projections no bare name is the alias of a table. */
  ghost predicate NoRowAliasOutside(root: Node) {
    forall m | m in Outside(root) && m.Col? && m.qual.None? :: m.name !in TableNames(root)
  }

  ghost predicate GrowthSafe(root: Node, extra: set<string>) {
    Unmentioned(root, extra) && NoNaturalJoin(root) && PlainCounts(root) && NoRowAliasOutside(root)
  }

  /** A node inside the tree is outside all projections or inside the projection of some SELECT. */
  lemma {:induction false} InsideOrOutside(n: Node, m: Node)
    requires m in Nodes(n)
    ensures m in Outside(n) || exists s, p :: s in Nodes(n) && s.Select? && p in s.projs && m in Nodes(p)
    decreases n
  {
    KidsSmaller(n);
    if m != n {
      var k := NodesAllSource(n, Kids(n), m);
      KidNodes(n, k);
      if n.Select? && k in n.projs {
        assert n in Nodes(n);
      } else {
        InsideOrOutside(k, m);
        if m in Outside(k) {
          if k in Ctes(n) { OutsideKid(n, Ctes(n), n, k, m); } else { OutsideKid(n, Rest(n), n, k, m); }
        } else {
          var s, p :| s in Nodes(k) && s.Select? && p in s.projs && m in Nodes(p);
          assert s in Nodes(n);
        }
      }
    }
  }

  lemma {:induction false} OutsideKid(ctx: Node, ns: seq<Node>, owner: Node, k: Node, m: Node)
    requires Under(ns, ctx) && k in ns && m in Outside(k) && !(owner.Select? && k in owner.projs)
    ensures m in OutsideAll(ctx, ns, owner)
  {
    hide Outside, Nodes;
    if k != ns[0] {
      assert k in ns[1..];
      OutsideKid(ctx, ns[1..], owner, k, m);
      assert OutsideAll(ctx, ns[1..], owner) <= OutsideAll(ctx, ns, owner);
    }
  }

  lemma NoBareAliases(p: Policy, root: Node, m: Node)
    requires Accepts(p, root) && p.banStar && NoRowAliasOutside(root)
    requires m in Nodes(root) && m.Col? && m.qual.None?
    ensures m.name !in TableNames(root)
  {
    AcceptedNodes(p, root);
    InsideOrOutside(root, m);
    if m !in Outside(root) {
      var s, q :| s in Nodes(root) && s.Select? && q in s.projs && m in Nodes(q);
      assert ProjectsColumns(TableNames(root), s);
    }
  }

  /** What the checks and the hypotheses say of each node by itself. */
  ghost predicate LocallyTame(c: Twin, n: Node) {
    match n
    case Col(qual, name) => name !in c.extra && (qual.None? ==> name !in c.aliases)
    case Count(distinct, arg) => (!distinct && arg.Star?) || !LooseStar(arg)
    case Table(_, _, _) => EffAlias(n) in c.aliases
    case Join(natural, _, _, _, _) => !natural
    case _ => true
  }

  lemma {:induction false} VisitAllMember(ctx: Node, ns: seq<Node>, anc: seq<Node>, k: Node)
    requires Under(ns, ctx) && k in ns
    ensures forall v | v in Visit(k, anc) :: v in VisitAll(ctx, ns, anc)
  {
    if k != ns[0] { VisitAllMember(ctx, ns[1..], anc, k); }
  }

  ghost predicate StarsHeld(n: Node, anc: seq<Node>) {
    forall v | v in Visit(n, anc) :: v.node.Star? ==> !StarEscapes(v.anc)
  }

  /** What a walk knows when it arrives at `n` under `anc`: every star below is held, every node is
      locally tame, and a bare star cannot be evaluated here. */
  ghost predicate Arrived(c: Twin, n: Node, anc: seq<Node>) {
    && StarsHeld(n, anc)
    && (forall m | m in Nodes(n) :: LocallyTame(c, m))
    && (StarEscapes(anc) || IsQuery(n) || n.Cte? || !LooseStar(n))
  }

  lemma Descend(c: Twin, n: Node, anc: seq<Node>, k: Node)
    requires Arrived(c, n, anc) && k in Kids(n)
    requires !(n.Count? && !n.distinct && n.arg.Star?)
    requires !n.SetOp? || IsQuery(k) || k.Cte? || !LooseStar(k)
    requires !n.Cte? || IsQuery(k)
    ensures Arrived(c, k, [n] + anc) && k < n
  {
    KidsSmaller(n);
    KidNodes(n, k);
    VisitAllMember(n, Kids(n), [n] + anc, k);
    assert ([n] + anc)[1..] == anc;
    assert LocallyTame(c, n) by { assert n in Nodes(n); }
    if !IsQuery(n) && LooseStar(k) { LooseKid(n, Kids(n), k); }
  }

  /** The ancestor walk over stars and the whole-row check together make the tree tame. */
  lemma {:induction false} TameByWalk(c: Twin, n: Node, anc: seq<Node>)
    requires Arrived(c, n, anc)
    ensures Tame(c, n)
    decreases n, 2
  {
    assert LocallyTame(c, n) by { assert n in Nodes(n); }
    if n.Star? {
      assert Visited(n, anc) in Visit(n, anc);
    } else if n.Select? {
      TameSelect(c, n, anc);
    } else if n.SetOp? {
      TameSetOp(c, n, anc);
    } else if n.Cte? {
      if IsQuery(n.body) { TameKid(c, n, anc, n.body); }
    } else if n.Count? {
      if n.distinct || !n.arg.Star? { TameKid(c, n, anc, n.arg); }
    } else if n.Join? {
      TameKid(c, n, anc, n.left);
      TameKid(c, n, anc, n.right);
      if n.on.Some? {
        assert n.on.value in OptSeq(n.on);
        TameKid(c, n, anc, n.on.value);
      }
    } else if n.Derived? {
      if IsQuery(n.query) { TameKid(c, n, anc, n.query); }
    } else if n.As? || n.Ordered? {
      TameKid(c, n, anc, n.e);
    } else if n.Test? {
      TameKid(c, n, anc, n.e);
      if IsQuery(n.query) { TameKid(c, n, anc, n.query); }
    } else if n.Agg? {
      TameKid(c, n, anc, n.arg);
    } else if n.Call? {
      forall i | 0 <= i < |n.args| ensures Tame(c, n.args[i]) { TameKid(c, n, anc, n.args[i]); }
    }
  }

  lemma {:induction false} TameKid(c: Twin, n: Node, anc: seq<Node>, k: Node)
    requires Arrived(c, n, anc) && k in Kids(n) && k < n
    requires !(n.Count? && !n.distinct && n.arg.Star?)
    requires !n.SetOp? || IsQuery(k) || k.Cte? || !LooseStar(k)
    requires !n.Cte? || IsQuery(k)
    ensures Tame(c, k)
    decreases k, 3
  {
    Descend(c, n, anc, k);
    TameByWalk(c, k, [n] + anc);
  }

  lemma {:induction false} TameSelect(c: Twin, n: Node, anc: seq<Node>)
    requires Arrived(c, n, anc) && n.Select?
    ensures Tame(c, n)
    decreases n, 1
  {
    KidsSmaller(n);
    forall i | 0 <= i < |n.ctes| && n.ctes[i].Cte? ensures Tame(c, n.ctes[i]) { TameKid(c, n, anc, n.ctes[i]); }
    forall i | 0 <= i < |n.projs| ensures Tame(c, n.projs[i]) { TameKid(c, n, anc, n.projs[i]); }
    forall i | 0 <= i < |n.sources| ensures Tame(c, n.sources[i]) { TameKid(c, n, anc, n.sources[i]); }
    forall i | 0 <= i < |n.keys| ensures Tame(c, n.keys[i]) { TameKid(c, n, anc, n.keys[i]); }
    forall i | 0 <= i < |n.order| ensures Tame(c, n.order[i]) { TameKid(c, n, anc, n.order[i]); }
    if n.having.Some? {
      assert n.having.value in OptSeq(n.having);
      TameKid(c, n, anc, n.having.value);
    }
    if n.cond.Some? {
      assert n.cond.value in OptSeq(n.cond);
      TameKid(c, n, anc, n.cond.value);
    }
    if n.limit.Some? {
      assert n.limit.value in OptSeq(n.limit);
      TameKid(c, n, anc, n.limit.value);
    }
  }

  lemma {:induction false} TameSetOp(c: Twin, n: Node, anc: seq<Node>)
    requires Arrived(c, n, anc) && n.SetOp?
    ensures Tame(c, n)
    decreases n, 1
  {
    forall i | 0 <= i < |n.ctes| && n.ctes[i].Cte? ensures Tame(c, n.ctes[i]) { TameKid(c, n, anc, n.ctes[i]); }
    if IsQuery(n.left) { TameKid(c, n, anc, n.left); }
    if IsQuery(n.right) { TameKid(c, n, anc, n.right); }
    if n.limit.Some? && Constant(n.limit.value) {
      assert n.limit.value in OptSeq(n.limit);
      ConstantHoldsNoStar(n.limit.value);
      TameKid(c, n, anc, n.limit.value);
    }
  }

  lemma InjectedTame(c: Twin, n: Node, k: int)
    requires IsQuery(n) && Tame(c, n)
    ensures Tame(c, InjectLimit(n, k))
  {
    assert !IsQuery(Lit(Int(k)));
  }

  lemma AcceptedTame(p: Policy, root: Node, c: Twin)
    requires Accepts(p, root) && p.banStar && GrowthSafe(root, c.extra) && c.aliases == TableNames(root)
    ensures Tame(c, root)
  {
    AcceptedNodes(p, root);
    forall m | m in Nodes(root) ensures LocallyTame(c, m) {
      if m.Col? && m.qual.None? { NoBareAliases(p, root, m); }
    }
    forall v | v in Visit(root, []) && v.node.Star? ensures !StarEscapes(v.anc) {
      assert NodeAccepted(p, root, v);
    }
    TameByWalk(c, root, []);
  }

  /** Column-growth independence: if every table the statement may read has, in the second world, the
      same rows with columns added under unmentioned names, the executed statement answers the same. */
  lemma ColumnGrowthIndependence(p: Policy, root: Node, s: Server, f1: nat, f2: nat, w1: World, w2: World, k: nat,
                                 extra: set<string>)
    requires Accepts(p, root) && p.banStar && Honest(s, p.deny) && Sequential(root, {})
    requires extra != {} && GrowthSafe(root, extra)
    requires forall t | Readable(root, t) :: RelExtended(Lookup(w1.tables, t), Lookup(w2.tables, t), extra)
    ensures Run(s, f1, w1, InjectLimit(root, k)).v == Run(s, f2, w2, InjectLimit(root, k)).v
  {
    var c := Twin(s.lib, w1.tables, w2.tables, extra, TableNames(root));
    AcceptedTame(p, root, c);
    hide Accepts, Honest, Sequential, Run, Answer, Readable, Tame, RelExtended, GrowthSafe;
    InjectedTame(c, root, k);
    SameAnswer(root, c, k);
    ExecutionOnlyReads(p, root, s, f1, w1, k);
    ExecutionOnlyReads(p, root, s, f2, w2, k);
    InjectedLimitCuts(s.lib, w1.tables, root, k);
    InjectedLimitCuts(s.lib, w2.tables, root, k);
  }
}
