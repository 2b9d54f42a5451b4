/** How many rows an accepted statement can produce, from its syntax alone. */
module SqlSize {
  import opened Prelude
  import opened SqlTree
  import opened SqlScope
  import opened SqlEval
  import opened SqlRun
  import opened SqlReadOnly
  import opened SqlValidator
  import opened SqlSafety

  function Pow(m: nat, e: nat): nat { if e == 0 then 1 else m * Pow(m, e - 1) }

  type Weights = map<string, nat>

  /** The exponent: one per stored table, summed over a FROM clause; a CTE reference weighs its body, a
      set operation one more than its heavier side, and a join that keeps unmatched right rows one more. */
  function Weight(n: Node, cw: Weights): nat
    decreases n, 2
  {
    match n
    case Select(ctes, _, _, _, sources, _, _, _, _, _, _) => WeightFroms(sources, WeightCtes(ctes, cw))
    case SetOp(ctes, _, _, left, right, _, _) =>
      var cw1 := WeightCtes(ctes, cw);
      1 + Max(Weight(left, cw1), Weight(right, cw1))
    case _ => 0
  }

  function WeightFrom(n: Node, cw: Weights): nat
    decreases n, 3
  {
    match n
    case Table(schema, name, _) => if schema == "" && name in cw then cw[name] else 1
    case Derived(query, _) => Weight(query, cw)
    case Join(_, side, left, right, _) => WeightFrom(left, cw) + WeightFrom(right, cw) + if KeepsRight(side) then 1 else 0
    case _ => 0
  }

  function WeightFroms(ns: seq<Node>, cw: Weights): nat
    decreases ns, 0
  {
    if ns == [] then 0 else WeightFrom(ns[0], cw) + WeightFroms(ns[1..], cw)
  }

  function WeightCtes(cs: seq<Node>, cw: Weights): Weights
    decreases cs, 0
  {
    if cs == [] then cw
    else if cs[0].Cte? then WeightCtes(cs[1..], cw[cs[0].alias := Weight(cs[0].body, cw)])
    else WeightCtes(cs[1..], cw)
  }

  // ----- powers -----

  lemma {:induction false} PowAdd(m: nat, a: nat, b: nat)
    ensures Pow(m, a + b) == Pow(m, a) * Pow(m, b)
  {
    if a > 0 {
      PowAdd(m, a - 1, b);
      assert m * (Pow(m, a - 1) * Pow(m, b)) == m * Pow(m, a - 1) * Pow(m, b);
    }
  }

  lemma {:induction false} PowMono(m: nat, a: nat, b: nat)
    requires 2 <= m && a <= b
    ensures 1 <= Pow(m, a) <= Pow(m, b)
    decreases b
  {
    if a < b {
      PowMono(m, a, b - 1);
      MulLe(1, Pow(m, b - 1), m, Pow(m, b - 1));
    } else if b > 0 {
      PowMono(m, a - 1, a - 1);
      MulLe(1, 1, m, Pow(m, a - 1));
    }
  }

  lemma PowSum(m: nat, a: nat, b: nat)
    requires 2 <= m
    ensures Pow(m, a) + Pow(m, b) <= Pow(m, 1 + Max(a, b))
  {
    var w := Max(a, b);
    PowMono(m, a, w);
    PowMono(m, b, w);
    MulLe(2, Pow(m, w), m, Pow(m, w));
    assert Pow(m, 1 + w) == m * Pow(m, w);
  }

  lemma MulLe(a: nat, b: nat, x: nat, y: nat)
    requires a <= x && b <= y
    ensures a * b <= x * y
  {
    assert a * b <= x * b;
    assert x * b <= x * y;
  }

  // ----- row operations -----

  lemma KeepShrinks<T>(xs: seq<T>, flags: seq<bool>)
    requires |xs| == |flags|
    ensures |Keep(xs, flags)| <= |xs|
  {
  }

  lemma DedupShrinks<T>(xs: seq<T>)
    ensures |Dedup(xs)| <= |xs|
  {
  }

  lemma OneMore(a: nat, b: nat)
    requires a > 0
    ensures b + (a - 1) * b == a * b
  {
  }

  lemma {:induction false} ProductSize(fs: seq<Frame>, gs: seq<Frame>)
    ensures |Product(fs, gs)| == |fs| * |gs|
  {
    if fs != [] {
      ProductSize(fs[1..], gs);
      OneMore(|fs|, |gs|);
    }
  }

  /** A left row is paired with right rows, or padded once. */
  lemma {:induction false} LeftRowsSize(lib: Library, db: Tables, env: Env, outer: Scope, n: Node, l: seq<Frame>, r: seq<Frame>, y: nat)
    requires n.Join? && |r| <= y && 1 <= y
    ensures |EvalLeftRows(lib, db, env, outer, n, l, r)| <= |l| * y
    decreases |l|
  {
    if l != [] {
      KeepShrinks(Probe(l[0], r), EvalMatches(lib, db, env, outer, n, l[0], r));
      LeftRowsSize(lib, db, env, outer, n, l[1..], r, y);
      OneMore(|l|, y);
    }
  }

  lemma {:induction false} RightRowsSize(lib: Library, db: Tables, env: Env, outer: Scope, n: Node, l: seq<Frame>, r: seq<Frame>)
    requires n.Join?
    ensures |EvalRightRows(lib, db, env, outer, n, l, r)| <= |r|
    decreases |r|
  {
    if r != [] { RightRowsSize(lib, db, env, outer, n, l, r[1..]); }
  }

  lemma {:induction false} SortSize(lib: Library, desc: seq<bool>, xs: seq<Ranked>)
    ensures |Sort(lib, desc, xs)| == |xs|
  {
    if xs != [] {
      SortSize(lib, desc, xs[..|xs| - 1]);
      PlaceSize(lib, desc, xs[|xs| - 1], Sort(lib, desc, xs[..|xs| - 1]));
    }
  }

  lemma {:induction false} PlaceSize(lib: Library, desc: seq<bool>, x: Ranked, xs: seq<Ranked>)
    ensures |Place(lib, desc, x, xs)| == |xs| + 1
  {
    if xs != [] { PlaceSize(lib, desc, x, xs[..|xs| - 1]); }
  }

  lemma ArrangeSize(lib: Library, order: seq<Node>, distinct: bool, xs: seq<Ranked>)
    ensures |Arrange(lib, order, distinct, xs)| <= |xs|
  {
    SortSize(lib, Directions(order), xs);
    DedupShrinks(Rows(if order == [] then xs else Sort(lib, Directions(order), xs)));
  }

  lemma CombineSize(kind: SetKind, l: Rel, r: Rel)
    ensures |Combine(kind, l, r)| <= |l| + |r|
  {
    var r1 := RelabelAll(l, r);
    DedupShrinks(l + r1);
    KeepShrinks(l, seq(|l|, i requires 0 <= i < |l| => l[i] in r1));
    KeepShrinks(l, seq(|l|, i requires 0 <= i < |l| => l[i] !in r1));
  }

  lemma PartitionSize(fs: seq<Frame>, ks: seq<seq<Value>>)
    requires |fs| == |ks|
    ensures |Partition(fs, ks)| <= |fs|
  {
    DedupShrinks(ks);
  }

  // ----- the bound -----

  ghost predicate EnvBounded(m: nat, env: Env, cw: Weights) {
    env.Keys == cw.Keys && forall x | x in env :: |env[x]| <= Pow(m, cw[x])
  }

  ghost predicate TablesBounded(m: nat, db: Tables) { forall t | t in db :: |db[t]| <= m }

  lemma {:induction false} SizeQ(lib: Library, db: Tables, env: Env, outer: Scope, n: Node, m: nat, cw: Weights)
    requires 2 <= m && TablesBounded(m, db) && EnvBounded(m, env, cw)
    ensures |EvalQ(lib, db, env, outer, n)| <= Pow(m, Weight(n, cw))
    decreases n, 2
  {
    if IsQuery(n) {
      SizeCtes(lib, db, env, outer, n.ctes, m, cw);
      var env1, cw1 := EvalCtes(lib, db, env, outer, n.ctes), WeightCtes(n.ctes, cw);
      WeightOfQuery(n, cw);
      if n.Select? { SizeRows(lib, db, env1, outer, n, m, cw1); } else { SizeSides(lib, db, env1, outer, n, m, cw1); }
      hide EvalRows, EvalSides, EvalCtes, EvalLimit, WeightCtes, Weight, Pow, WeightFroms;
    }
  }

  /** The weight of a query's rows once its CTEs are weighed. */
  function WeightBody(n: Node, cw: Weights): nat
    requires IsQuery(n)
  {
    if n.Select? then WeightFroms(n.sources, cw) else 1 + Max(Weight(n.left, cw), Weight(n.right, cw))
  }

  lemma WeightOfQuery(n: Node, cw: Weights)
    requires IsQuery(n)
    ensures Weight(n, cw) == WeightBody(n, WeightCtes(n.ctes, cw))
  {
  }

  lemma {:induction false} SizeSides(lib: Library, db: Tables, env: Env, outer: Scope, n: Node, m: nat, cw: Weights)
    requires 2 <= m && TablesBounded(m, db) && EnvBounded(m, env, cw) && n.SetOp?
    ensures |EvalSides(lib, db, env, outer, n)| <= Pow(m, WeightBody(n, cw))
    decreases n, 1
  {
    SizeQ(lib, db, env, outer, n.left, m, cw);
    SizeQ(lib, db, env, outer, n.right, m, cw);
    hide EvalQ, Weight, Pow, EnvBounded, TablesBounded, Combine, Arrange;
    var l, r := EvalQ(lib, db, env, outer, n.left), EvalQ(lib, db, env, outer, n.right);
    CombineSize(n.kind, l, r);
    ArrangeSize(lib, n.order, false, ByOutput(Combine(n.kind, l, r), n.order));
    PowSum(m, Weight(n.left, cw), Weight(n.right, cw));
  }

  lemma {:induction false} SizeRows(lib: Library, db: Tables, env: Env, outer: Scope, n: Node, m: nat, cw: Weights)
    requires 2 <= m && TablesBounded(m, db) && EnvBounded(m, env, cw) && n.Select?
    ensures |EvalRows(lib, db, env, outer, n)| <= Pow(m, WeightFroms(n.sources, cw))
    decreases n, 1
  {
    SizeFroms(lib, db, env, outer, n.sources, m, cw);
    PowMono(m, 0, WeightFroms(n.sources, cw));
    PartsSize(lib, db, env, outer, n);
    GroupsSize(lib, db, env, outer, n);
    ArrangeSize(lib, n.order, n.distinct, EvalTuples(lib, db, env, outer, EvalGroups(lib, db, env, outer, n), n));
    hide EvalFroms, EvalGroups, EvalTuples, EvalParts, EvalKept, Pow, WeightFroms, TablesBounded, EnvBounded, Arrange;
  }

  /** There are no more groups than joined rows, except the one group of an aggregate over none. */
  lemma PartsSize(lib: Library, db: Tables, env: Env, outer: Scope, n: Node)
    requires n.Select?
    ensures |EvalParts(lib, db, env, outer, n)| <= Max(1, |EvalFroms(lib, db, env, outer, n.sources)|)
  {
    var kept := EvalFroms(lib, db, env, outer, n.sources);
    hide EvalFroms, EvalFlags, EvalKeys;
    if n.cond.Some? {
      var flags := EvalFlags(lib, db, env, outer, kept, n.cond.value);
      KeepShrinks(kept, flags);
      kept := Keep(kept, flags);
    }
    assert kept == EvalKept(lib, db, env, outer, n);
    if n.keys != [] { PartitionSize(kept, EvalKeys(lib, db, env, outer, kept, n.keys)); }
  }

  /** HAVING only drops groups. */
  lemma GroupsSize(lib: Library, db: Tables, env: Env, outer: Scope, n: Node)
    requires n.Select?
    ensures |EvalGroups(lib, db, env, outer, n)| <= |EvalParts(lib, db, env, outer, n)|
  {
    var parts := EvalParts(lib, db, env, outer, n);
    if n.having.Some? { KeepShrinks(parts, EvalHaving(lib, db, env, outer, parts, n.having.value)); }
  }

  lemma {:induction false} SizeCtes(lib: Library, db: Tables, env: Env, outer: Scope, cs: seq<Node>, m: nat, cw: Weights)
    requires 2 <= m && TablesBounded(m, db) && EnvBounded(m, env, cw)
    ensures EnvBounded(m, EvalCtes(lib, db, env, outer, cs), WeightCtes(cs, cw))
    decreases cs, 0
  {
    if cs != [] {
      if cs[0].Cte? {
        SizeQ(lib, db, env, outer, cs[0].body, m, cw);
        SizeCtes(lib, db, env[cs[0].alias := EvalQ(lib, db, env, outer, cs[0].body)], outer, cs[1..], m,
                 cw[cs[0].alias := Weight(cs[0].body, cw)]);
      } else {
        SizeCtes(lib, db, env, outer, cs[1..], m, cw);
      }
    }
  }

  lemma {:induction false} SizeFroms(lib: Library, db: Tables, env: Env, outer: Scope, ns: seq<Node>, m: nat, cw: Weights)
    requires 2 <= m && TablesBounded(m, db) && EnvBounded(m, env, cw)
    ensures |EvalFroms(lib, db, env, outer, ns)| <= Pow(m, WeightFroms(ns, cw))
    decreases ns, 0
  {
    if ns != [] {
      SizeF(lib, db, env, outer, ns[0], m, cw);
      SizeFroms(lib, db, env, outer, ns[1..], m, cw);
      var l, r := EvalF(lib, db, env, outer, ns[0]), EvalFroms(lib, db, env, outer, ns[1..]);
      ProductSize(l, r);
      MulLe(|l|, |r|, Pow(m, WeightFrom(ns[0], cw)), Pow(m, WeightFroms(ns[1..], cw)));
      PowAdd(m, WeightFrom(ns[0], cw), WeightFroms(ns[1..], cw));
    }
  }

  lemma {:induction false} SizeF(lib: Library, db: Tables, env: Env, outer: Scope, n: Node, m: nat, cw: Weights)
    requires 2 <= m && TablesBounded(m, db) && EnvBounded(m, env, cw)
    ensures |EvalF(lib, db, env, outer, n)| <= Pow(m, WeightFrom(n, cw))
    decreases n, 3
  {
    PowMono(m, 0, WeightFrom(n, cw));
    if n.Table? {
      assert Pow(m, 1) == m * Pow(m, 0);
    } else if n.Derived? {
      SizeQ(lib, db, env, outer, n.query, m, cw);
    } else if n.Join? {
      SizeF(lib, db, env, outer, n.left, m, cw);
      SizeF(lib, db, env, outer, n.right, m, cw);
      JoinSize(lib, db, env, outer, n, m, WeightFrom(n.left, cw), WeightFrom(n.right, cw));
    }
  }

  lemma JoinRows(lib: Library, db: Tables, env: Env, outer: Scope, n: Node, y: nat)
    requires n.Join? && 1 <= y && |EvalF(lib, db, env, outer, n.right)| <= y
    ensures |EvalF(lib, db, env, outer, n)| <= |EvalF(lib, db, env, outer, n.left)| * y + if KeepsRight(n.side) then y else 0
  {
    var l, r := EvalF(lib, db, env, outer, n.left), EvalF(lib, db, env, outer, n.right);
    LeftRowsSize(lib, db, env, outer, n, l, r, y);
    RightRowsSize(lib, db, env, outer, n, l, r);
    hide EvalLeftRows, EvalRightRows, KeepsRight;
  }

  lemma JoinSize(lib: Library, db: Tables, env: Env, outer: Scope, n: Node, m: nat, a: nat, b: nat)
    requires n.Join? && 2 <= m
    requires |EvalF(lib, db, env, outer, n.left)| <= Pow(m, a) && |EvalF(lib, db, env, outer, n.right)| <= Pow(m, b)
    ensures |EvalF(lib, db, env, outer, n)| <= Pow(m, a + b + if KeepsRight(n.side) then 1 else 0)
  {
    hide Pow, EvalF, KeepsRight;
    PowMono(m, b, b);
    JoinRows(lib, db, env, outer, n, Pow(m, b));
    JoinFits(m, a, b, |EvalF(lib, db, env, outer, n.left)|);
  }

  lemma JoinFits(m: nat, a: nat, b: nat, l: nat)
    requires 2 <= m && l <= Pow(m, a)
    ensures l * Pow(m, b) <= Pow(m, a + b) && l * Pow(m, b) + Pow(m, b) <= Pow(m, a + b + 1)
  {
    PowMono(m, b, a + b);
    PowAdd(m, a, b);
    MulLe(l, Pow(m, b), Pow(m, a), Pow(m, b));
    PowSum(m, a + b, a + b);
  }

  /** Executing an accepted statement over tables of at most `m` rows yields at most m to the power of
      its weight rows, and never more than the injected limit. */
  lemma AcceptedSize(p: Policy, root: Node, s: Server, fuel: nat, w: World, k: nat, m: nat)
    requires Accepts(p, root) && Honest(s, p.deny)
    requires 2 <= m && TablesBounded(m, w.tables)
    ensures |Run(s, fuel, w, InjectLimit(root, k)).v| <= Pow(m, Weight(root, map[]))
    ensures |Run(s, fuel, w, InjectLimit(root, k)).v| <= k
  {
    ExecutionOnlyReads(p, root, s, fuel, w, k);
    var none: Env := map[];
    SizeQ(s.lib, w.tables, none, [], Unlimited(root), m, map[]);
    assert Weight(Unlimited(root), map[]) == Weight(root, map[]);
  }
}
