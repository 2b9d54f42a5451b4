/** A query's result depends only on the columns it names of the tables it refers to.

    Two databases are compared: wherever the query refers to a stored table, the second database holds
    the first's rows, each possibly followed by extra fields with names from `extra`. With `extra` empty
    the tables are equal and the theorem is non-interference; otherwise it is column-growth
    independence, and the query must be `Tame`: it mentions no extra name and forms no whole row of a
    stored table except to count rows. */
module SqlStable {
  import opened Prelude
  import opened SqlTree
  import opened SqlScope
  import opened SqlEval

  /** `aliases` are the names under which stored tables appear in the query. */
  datatype Twin = Twin(lib: Library, a: Tables, b: Tables, extra: set<string>, aliases: set<string>)

  ghost predicate Extended(t: Tuple, u: Tuple, extra: set<string>) {
    && |t| <= |u| && u[..|t|] == t
    && (extra == {} ==> |u| == |t|)
    && forall i | |t| <= i < |u| :: u[i].name in extra
  }

  ghost predicate RelExtended(r: Rel, s: Rel, extra: set<string>) {
    |r| == |s| && forall i | 0 <= i < |r| :: Extended(r[i], s[i], extra)
  }

  ghost predicate Twinned(c: Twin, ts: seq<TableId>) {
    forall t | t in ts :: RelExtended(Lookup(c.a, t), Lookup(c.b, t), c.extra)
  }

  ghost predicate BindingRel(c: Twin, x: Binding, y: Binding) {
    x.alias == y.alias && x.padded == y.padded && (x.tuple == y.tuple || (x.alias in c.aliases && Extended(x.tuple, y.tuple, c.extra)))
  }

  ghost predicate FrameRel(c: Twin, f: Frame, g: Frame) {
    |f| == |g| && forall i | 0 <= i < |f| :: BindingRel(c, f[i], g[i])
  }

  /** Pointwise, for the frames of a relation and for the frames of a scope alike. */
  ghost predicate FramesRel(c: Twin, fs: seq<Frame>, gs: seq<Frame>) {
    |fs| == |gs| && forall i | 0 <= i < |fs| :: FrameRel(c, fs[i], gs[i])
  }

  ghost predicate GroupsRel(c: Twin, xs: seq<seq<Frame>>, ys: seq<seq<Frame>>) {
    |xs| == |ys| && forall i | 0 <= i < |xs| :: FramesRel(c, xs[i], ys[i])
  }

  /** No extra column, no bare row alias of a stored table, no NATURAL JOIN, and a star only as the
      argument of a plain COUNT. */
  ghost predicate Tame(c: Twin, n: Node)
    decreases n
  {
    match n
    case Lit(_) => true
    case Col(qual, name) => name !in c.extra && (qual.None? ==> name !in c.aliases)
    case Star(_) => false
    case Count(distinct, arg) => (!distinct && arg.Star?) || Tame(c, arg)
    case Agg(_, arg) => Tame(c, arg)
    case Call(_, _, args) => forall i | 0 <= i < |args| :: Tame(c, args[i])
    case Table(_, _, _) => EffAlias(n) in c.aliases
    case Derived(query, _) => IsQuery(query) ==> Tame(c, query)
    case Join(natural, _, left, right, on) => !natural && Tame(c, left) && Tame(c, right) && (on.Some? ==> Tame(c, on.value))
    case As(e, _) => Tame(c, e)
    case Ordered(e, _) => Tame(c, e)
    case Test(_, e, query) => Tame(c, e) && (IsQuery(query) ==> Tame(c, query))
    case Cte(_, body) => IsQuery(body) ==> Tame(c, body)
    case Select(ctes, _, _, projs, sources, cond, keys, having, order, limit, _) =>
      && (forall i | 0 <= i < |ctes| :: ctes[i].Cte? ==> Tame(c, ctes[i]))
      && (forall i | 0 <= i < |projs| :: Tame(c, projs[i]))
      && (forall i | 0 <= i < |sources| :: Tame(c, sources[i]))
      && (forall i | 0 <= i < |keys| :: Tame(c, keys[i]))
      && (forall i | 0 <= i < |order| :: Tame(c, order[i]))
      && (cond.Some? ==> Tame(c, cond.value))
      && (having.Some? ==> Tame(c, having.value))
      && (limit.Some? && Constant(limit.value) ==> Tame(c, limit.value))
    case SetOp(ctes, _, _, left, right, _, limit) =>
      && (forall i | 0 <= i < |ctes| :: ctes[i].Cte? ==> Tame(c, ctes[i]))
      && (IsQuery(left) ==> Tame(c, left))
      && (IsQuery(right) ==> Tame(c, right))
      && (limit.Some? && Constant(limit.value) ==> Tame(c, limit.value))
    case _ => true
  }

  ghost predicate Ready(c: Twin, n: Node) { c.extra != {} ==> Tame(c, n) }

  ghost predicate ListReady(c: Twin, ns: seq<Node>) { forall i | 0 <= i < |ns| :: Ready(c, ns[i]) }

  ghost predicate ListTwinned(c: Twin, ns: seq<Node>, b: set<string>) { forall i | 0 <= i < |ns| :: Twinned(c, PgFree(ns[i], b)) }

  // ----- free references of parts -----

  lemma {:induction false} PgFreeMember(ctx: Node, ns: seq<Node>, b: set<string>, i: nat)
    requires Under(ns, ctx) && i < |ns|
    ensures forall t | t in PgFree(ns[i], b) :: t in PgFreeAll(ctx, ns, b)
  {
    if i > 0 { PgFreeMember(ctx, ns[1..], b, i - 1); }
  }

  lemma RestTwinned(c: Twin, n: Node, b: set<string>, ns: seq<Node>)
    requires Twinned(c, PgFree(n, b)) && !n.Table?
    requires forall i | 0 <= i < |ns| :: ns[i] in Rest(n)
    ensures ListTwinned(c, ns, b + Aliases(Ctes(n)))
  {
    KidsSmaller(n);
    forall i | 0 <= i < |ns| ensures Twinned(c, PgFree(ns[i], b + Aliases(Ctes(n)))) {
      assert ns[i] in Rest(n);
      var j :| 0 <= j < |Rest(n)| && Rest(n)[j] == ns[i];
      PgFreeMember(n, Rest(n), b + Aliases(Ctes(n)), j);
    }
  }

  /** A part of a node that is not a query sees the same names. */
  lemma PartTwinned(c: Twin, n: Node, b: set<string>, k: Node)
    requires Twinned(c, PgFree(n, b)) && !n.Table? && !IsQuery(n) && k in Rest(n)
    ensures Twinned(c, PgFree(k, b))
  {
    RestTwinned(c, n, b, [k]);
    assert b + Aliases(Ctes(n)) == b;
    assert [k][0] == k;
  }

  lemma {:induction false} EnvKeys(lib: Library, db: Tables, env: Env, outer: Scope, cs: seq<Node>)
    ensures EvalCtes(lib, db, env, outer, cs).Keys == env.Keys + Aliases(cs)
    decreases |cs|
  {
    if cs != [] {
      var env1 := if cs[0].Cte? then env[cs[0].alias := EvalQ(lib, db, env, outer, cs[0].body)] else env;
      EnvKeys(lib, db, env1, outer, cs[1..]);
    }
  }

  // ----- related frames -----

  lemma SameFrames(c: Twin, fs: seq<Frame>, gs: seq<Frame>)
    requires c.extra == {} && FramesRel(c, fs, gs)
    ensures fs == gs
  {
    forall i | 0 <= i < |fs| ensures fs[i] == gs[i] {
      forall j | 0 <= j < |fs[i]| ensures fs[i][j] == gs[i][j] {
        assert BindingRel(c, fs[i][j], gs[i][j]);
      }
    }
  }

  lemma FieldMatchesCons(f: Field, t: Tuple, name: string)
    ensures FieldMatches([f] + t, name) == (if f.name == name then [f.v] else []) + FieldMatches(t, name)
  {
    assert ([f] + t)[1..] == t;
  }

  lemma {:induction false} FieldMatchesAppend(t: Tuple, u: Tuple, name: string)
    ensures FieldMatches(t + u, name) == FieldMatches(t, name) + FieldMatches(u, name)
  {
    if t == [] {
      assert t + u == u;
    } else {
      FieldMatchesAppend(t[1..], u, name);
      assert t == [t[0]] + t[1..];
      Regroup([t[0]], t[1..], u);
      FieldMatchesCons(t[0], t[1..], name);
      FieldMatchesCons(t[0], t[1..] + u, name);
      hide FieldMatches;
      Regroup(if t[0].name == name then [t[0].v] else [], FieldMatches(t[1..], name), FieldMatches(u, name));
    }
  }

  lemma NoFieldMatches(t: Tuple, name: string)
    requires forall i | 0 <= i < |t| :: t[i].name != name
    ensures FieldMatches(t, name) == []
  {
  }

  lemma ExtendedMatches(t: Tuple, u: Tuple, extra: set<string>, name: string)
    requires Extended(t, u, extra) && name !in extra
    ensures FieldMatches(u, name) == FieldMatches(t, name)
  {
    assert u == t + u[|t|..];
    FieldMatchesAppend(t, u[|t|..], name);
    NoFieldMatches(u[|t|..], name);
  }

  lemma {:induction false} ColMatchesRel(c: Twin, f: Frame, g: Frame, alias: Option<string>, name: string)
    requires FrameRel(c, f, g) && name !in c.extra
    ensures ColMatches(f, alias, name) == ColMatches(g, alias, name)
  {
    if f != [] {
      assert BindingRel(c, f[0], g[0]);
      if f[0].tuple != g[0].tuple {
        ExtendedMatches(f[0].tuple, g[0].tuple, c.extra, name);
      }
      ColMatchesRel(c, f[1..], g[1..], alias, name);
    }
  }

  /** Corresponding frames hold equally many rows of an alias, and the same ones if it is not a table's. */
  lemma {:induction false} RowMatchesRel(c: Twin, f: Frame, g: Frame, alias: string)
    requires FrameRel(c, f, g)
    ensures |RowMatches(f, alias)| == |RowMatches(g, alias)|
    ensures forall i | 0 <= i < |RowMatches(f, alias)| :: IsNull(RowMatches(f, alias)[i]) == IsNull(RowMatches(g, alias)[i])
    ensures alias !in c.aliases ==> RowMatches(f, alias) == RowMatches(g, alias)
  {
    if f != [] {
      assert BindingRel(c, f[0], g[0]);
      RowMatchesRel(c, f[1..], g[1..], alias);
    }
  }

  lemma ResolveRel(c: Twin, sc: Scope, sd: Scope, qual: Option<string>, name: string)
    requires FramesRel(c, sc, sd)
    requires name !in c.extra && (qual.None? ==> name !in c.aliases)
    ensures Resolve(sc, qual, name) == Resolve(sd, qual, name)
  {
    if qual.None? {
      ResolveColRel(c, sc, sd, name);
      ResolveRowRel(c, sc, sd, name);
    } else {
      ResolveQualifiedRel(c, sc, sd, qual.value, name);
    }
  }

  lemma {:induction false} ResolveColRel(c: Twin, sc: Scope, sd: Scope, name: string)
    requires FramesRel(c, sc, sd) && name !in c.extra
    ensures ResolveCol(sc, name) == ResolveCol(sd, name)
  {
    if sc != [] {
      assert FrameRel(c, sc[0], sd[0]);
      ColMatchesRel(c, sc[0], sd[0], None, name);
      ResolveColRel(c, sc[1..], sd[1..], name);
    }
  }

  lemma {:induction false} ResolveRowRel(c: Twin, sc: Scope, sd: Scope, alias: string)
    requires FramesRel(c, sc, sd) && alias !in c.aliases
    ensures ResolveRow(sc, alias) == ResolveRow(sd, alias)
  {
    if sc != [] {
      assert FrameRel(c, sc[0], sd[0]);
      RowMatchesRel(c, sc[0], sd[0], alias);
      ResolveRowRel(c, sc[1..], sd[1..], alias);
    }
  }

  lemma {:induction false} ResolveQualifiedRel(c: Twin, sc: Scope, sd: Scope, alias: string, name: string)
    requires FramesRel(c, sc, sd) && name !in c.extra
    ensures ResolveQualified(sc, alias, name) == ResolveQualified(sd, alias, name)
  {
    if sc != [] {
      assert FrameRel(c, sc[0], sd[0]);
      RowMatchesRel(c, sc[0], sd[0], alias);
      ColMatchesRel(c, sc[0], sd[0], Some(alias), name);
      ResolveQualifiedRel(c, sc[1..], sd[1..], alias, name);
    }
  }

  /** A star is NULL in both databases or in neither. */
  lemma {:induction false} StarNullRel(c: Twin, sc: Scope, sd: Scope, of: Option<string>)
    requires FramesRel(c, sc, sd)
    ensures IsNull(ResolveStar(sc, of)) == IsNull(ResolveStar(sd, of))
  {
    if of.Some? && sc != [] {
      assert FrameRel(c, sc[0], sd[0]);
      RowMatchesRel(c, sc[0], sd[0], of.value);
      StarNullRel(c, sc[1..], sd[1..], of);
    }
  }

  lemma {:induction false} SameNullsSameCount(us: seq<Value>, vs: seq<Value>)
    requires |us| == |vs| && forall i | 0 <= i < |us| :: IsNull(us[i]) == IsNull(vs[i])
    ensures |NonNull(us)| == |NonNull(vs)|
  {
    if us != [] { SameNullsSameCount(us[1..], vs[1..]); }
  }

  /** A plain COUNT of a star counts the same rows in both. */
  lemma CountStar(c: Twin, env: Env, outer: Scope, outer1: Scope, fs: seq<Frame>, gs: seq<Frame>, star: Node)
    requires star.Star? && FramesRel(c, outer, outer1) && FramesRel(c, fs, gs)
    ensures CountOf(false, EvalEach(c.lib, c.a, env, outer, fs, star)) == CountOf(false, EvalEach(c.lib, c.b, env, outer1, gs, star))
  {
    var us, vs := EvalEach(c.lib, c.a, env, outer, fs, star), EvalEach(c.lib, c.b, env, outer1, gs, star);
    forall i | 0 <= i < |us| ensures IsNull(us[i]) == IsNull(vs[i]) {
      CurrentRel(c, outer, outer1, [fs[i]], [gs[i]]);
      StarNullRel(c, [Current([fs[i]])] + outer, [Current([gs[i]])] + outer1, star.of);
      assert us[i] == EvalE(c.lib, c.a, env, outer, [fs[i]], star);
      assert vs[i] == EvalE(c.lib, c.b, env, outer1, [gs[i]], star);
    }
    SameNullsSameCount(us, vs);
  }

  lemma {:induction false} KeepRel(c: Twin, fs: seq<Frame>, gs: seq<Frame>, flags: seq<bool>)
    requires FramesRel(c, fs, gs) && |flags| == |fs|
    ensures FramesRel(c, Keep(fs, flags), Keep(gs, flags))
  {
    if fs != [] {
      assert FrameRel(c, fs[0], gs[0]);
      KeepRel(c, fs[1..], gs[1..], flags[1..]);
    }
  }

  lemma {:induction false} KeepGroupsRel(c: Twin, xs: seq<seq<Frame>>, ys: seq<seq<Frame>>, flags: seq<bool>)
    requires GroupsRel(c, xs, ys) && |flags| == |xs|
    ensures GroupsRel(c, Keep(xs, flags), Keep(ys, flags))
  {
    if xs != [] {
      assert FramesRel(c, xs[0], ys[0]);
      KeepGroupsRel(c, xs[1..], ys[1..], flags[1..]);
    }
  }

  lemma FrameConcatRel(c: Twin, f: Frame, f1: Frame, g: Frame, g1: Frame)
    requires FrameRel(c, f, f1) && FrameRel(c, g, g1)
    ensures FrameRel(c, f + g, f1 + g1)
  {
  }

  lemma {:induction false} ProductRel(c: Twin, fs: seq<Frame>, fs1: seq<Frame>, gs: seq<Frame>, gs1: seq<Frame>)
    requires FramesRel(c, fs, fs1) && FramesRel(c, gs, gs1)
    ensures FramesRel(c, Product(fs, gs), Product(fs1, gs1))
  {
    if fs != [] {
      ProductRel(c, fs[1..], fs1[1..], gs, gs1);
      var x := seq(|gs|, i requires 0 <= i < |gs| => fs[0] + gs[i]);
      var y := seq(|gs1|, i requires 0 <= i < |gs1| => fs1[0] + gs1[i]);
      forall i | 0 <= i < |x| ensures FrameRel(c, x[i], y[i]) {
        FrameConcatRel(c, fs[0], fs1[0], gs[i], gs1[i]);
      }
      assert FramesRel(c, x, y);
    }
  }

  lemma PartitionRel(c: Twin, fs: seq<Frame>, gs: seq<Frame>, ks: seq<seq<Value>>)
    requires FramesRel(c, fs, gs) && |ks| == |fs|
    ensures GroupsRel(c, Partition(fs, ks), Partition(gs, ks))
  {
    var ds := Dedup(ks);
    forall j | 0 <= j < |ds| ensures FramesRel(c, Partition(fs, ks)[j], Partition(gs, ks)[j]) {
      KeepRel(c, fs, gs, seq(|ks|, i requires 0 <= i < |ks| => ks[i] == ds[j]));
    }
  }

  lemma BindRel(c: Twin, alias: string, r: Rel, s: Rel)
    requires r == s || (alias in c.aliases && RelExtended(r, s, c.extra))
    ensures FramesRel(c, Bind(alias, r), Bind(alias, s))
  {
  }

  lemma CurrentRel(c: Twin, outer: Scope, outer1: Scope, group: seq<Frame>, group1: seq<Frame>)
    requires FramesRel(c, outer, outer1) && FramesRel(c, group, group1)
    ensures FramesRel(c, [Current(group)] + outer, [Current(group1)] + outer1)
  {
  }

  // ----- evaluation in the two databases -----

  lemma {:induction false} StableQ(c: Twin, env: Env, outer: Scope, outer1: Scope, n: Node)
    requires Ready(c, n) && Twinned(c, PgFree(n, env.Keys)) && FramesRel(c, outer, outer1)
    ensures EvalQ(c.lib, c.a, env, outer, n) == EvalQ(c.lib, c.b, env, outer1, n)
    decreases n, 3, 0
  {
    if IsQuery(n) {
      KidsSmaller(n);
      StableCtes(c, n, env, outer, outer1, n.ctes);
      EnvKeys(c.lib, c.a, env, outer, n.ctes);
      var env1 := EvalCtes(c.lib, c.a, env, outer, n.ctes);
      StableLimit(c, env, env1, n);
      hide EvalSides, EvalRows, EvalCtes, EvalLimit, PgFree, Tame, Twinned;
      if n.Select? { StableSelect(c, env, env1, outer, outer1, n); } else { StableSides(c, env, env1, outer, outer1, n); }
    }
  }

  lemma {:induction false} StableSides(c: Twin, env: Env, env1: Env, outer: Scope, outer1: Scope, n: Node)
    requires n.SetOp? && Ready(c, n) && Twinned(c, PgFree(n, env.Keys)) && FramesRel(c, outer, outer1)
    requires env1.Keys == env.Keys + Aliases(n.ctes)
    ensures EvalSides(c.lib, c.a, env1, outer, n) == EvalSides(c.lib, c.b, env1, outer1, n)
    decreases n, 2
  {
    RestTwinned(c, n, env.Keys, [n.left, n.right]);
    assert [n.left, n.right][0] == n.left && [n.left, n.right][1] == n.right;
    if IsQuery(n.left) { StableQ(c, env1, outer, outer1, n.left); }
    if IsQuery(n.right) { StableQ(c, env1, outer, outer1, n.right); }
  }

  lemma {:induction false} StableLimit(c: Twin, env: Env, env1: Env, n: Node)
    requires IsQuery(n) && Ready(c, n) && Twinned(c, PgFree(n, env.Keys))
    requires env1.Keys == env.Keys + Aliases(n.ctes)
    ensures EvalLimit(c.lib, c.a, env1, n.limit) == EvalLimit(c.lib, c.b, env1, n.limit)
    decreases n, 2
  {
    if n.limit.Some? && Constant(n.limit.value) {
      assert n.limit.value in OptSeq(n.limit);
      RestTwinned(c, n, env.Keys, [n.limit.value]);
      assert [n.limit.value][0] == n.limit.value;
      StableE(c, env1, [], [], [], [], n.limit.value);
    }
  }

  lemma {:induction false} StableSelect(c: Twin, env: Env, env1: Env, outer: Scope, outer1: Scope, n: Node)
    requires n.Select? && Ready(c, n) && Twinned(c, PgFree(n, env.Keys)) && FramesRel(c, outer, outer1)
    requires env1.Keys == env.Keys + Aliases(n.ctes)
    ensures EvalRows(c.lib, c.a, env1, outer, n) == EvalRows(c.lib, c.b, env1, outer1, n)
    decreases n, 2
  {
    StableGroups(c, env, env1, outer, outer1, n);
    var xs, ys := EvalGroups(c.lib, c.a, env1, outer, n), EvalGroups(c.lib, c.b, env1, outer1, n);
    StableTuples(c, env, env1, outer, outer1, xs, ys, n);
  }

  lemma {:induction false} StableTuples(c: Twin, env: Env, env1: Env, outer: Scope, outer1: Scope, xs: seq<seq<Frame>>, ys: seq<seq<Frame>>, n: Node)
    requires n.Select? && Ready(c, n) && Twinned(c, PgFree(n, env.Keys)) && FramesRel(c, outer, outer1)
    requires env1.Keys == env.Keys + Aliases(n.ctes) && GroupsRel(c, xs, ys)
    ensures EvalTuples(c.lib, c.a, env1, outer, xs, n) == EvalTuples(c.lib, c.b, env1, outer1, ys, n)
    decreases n, 1
  {
    RestTwinned(c, n, env.Keys, n.projs);
    RestTwinned(c, n, env.Keys, n.order);
    forall i | 0 <= i < |xs|
      ensures EvalTuples(c.lib, c.a, env1, outer, xs, n)[i] == EvalTuples(c.lib, c.b, env1, outer1, ys, n)[i]
    {
      StableTuple(c, env1, outer, outer1, xs[i], ys[i], n.projs);
      StableOrder(c, env1, outer, outer1, xs[i], ys[i], EvalTuple(c.lib, c.a, env1, outer, xs[i], n.projs), n.order);
    }
  }

  lemma {:induction false} StableOrder(c: Twin, env: Env, outer: Scope, outer1: Scope, group: seq<Frame>, group1: seq<Frame>, t: Tuple, os: seq<Node>)
    requires ListReady(c, os) && ListTwinned(c, os, env.Keys)
    requires FramesRel(c, outer, outer1) && FramesRel(c, group, group1)
    ensures EvalOrder(c.lib, c.a, env, outer, group, t, os) == EvalOrder(c.lib, c.b, env, outer1, group1, t, os)
    decreases os, 0
  {
    if os != [] {
      StableKey(c, env, outer, outer1, group, group1, t, os[0]);
      StableOrder(c, env, outer, outer1, group, group1, t, os[1..]);
    }
  }

  lemma {:induction false} StableKey(c: Twin, env: Env, outer: Scope, outer1: Scope, group: seq<Frame>, group1: seq<Frame>, t: Tuple, o: Node)
    requires Ready(c, o) && Twinned(c, PgFree(o, env.Keys))
    requires FramesRel(c, outer, outer1) && FramesRel(c, group, group1)
    ensures EvalKey(c.lib, c.a, env, outer, group, t, o) == EvalKey(c.lib, c.b, env, outer1, group1, t, o)
    decreases o, 5
  {
    if o.Ordered? {
      PartTwinned(c, o, env.Keys, o.e);
      StableE(c, env, outer, outer1, group, group1, o.e);
    }
  }

  lemma {:induction false} StableGroups(c: Twin, env: Env, env1: Env, outer: Scope, outer1: Scope, n: Node)
    requires n.Select? && Ready(c, n) && Twinned(c, PgFree(n, env.Keys)) && FramesRel(c, outer, outer1)
    requires env1.Keys == env.Keys + Aliases(n.ctes)
    ensures GroupsRel(c, EvalGroups(c.lib, c.a, env1, outer, n), EvalGroups(c.lib, c.b, env1, outer1, n))
    decreases n, 1, 1
  {
    StableParts(c, env, env1, outer, outer1, n);
    if n.having.Some? {
      var xs, ys := EvalParts(c.lib, c.a, env1, outer, n), EvalParts(c.lib, c.b, env1, outer1, n);
      assert n.having.value in OptSeq(n.having);
      RestTwinned(c, n, env.Keys, [n.having.value]);
      assert [n.having.value][0] == n.having.value;
      StableInGroups(c, env1, outer, outer1, xs, ys, n.having.value);
      KeepGroupsRel(c, xs, ys, EvalHaving(c.lib, c.a, env1, outer, xs, n.having.value));
    }
  }

  lemma {:induction false} StableInGroups(c: Twin, env: Env, outer: Scope, outer1: Scope, xs: seq<seq<Frame>>, ys: seq<seq<Frame>>, n: Node)
    requires Ready(c, n) && Twinned(c, PgFree(n, env.Keys))
    requires FramesRel(c, outer, outer1) && GroupsRel(c, xs, ys)
    ensures EvalInGroups(c.lib, c.a, env, outer, xs, n) == EvalInGroups(c.lib, c.b, env, outer1, ys, n)
    decreases n, 5
  {
    forall i | 0 <= i < |xs|
      ensures EvalE(c.lib, c.a, env, outer, xs[i], n) == EvalE(c.lib, c.b, env, outer1, ys[i], n)
    {
      StableE(c, env, outer, outer1, xs[i], ys[i], n);
    }
  }

  lemma {:induction false} StableParts(c: Twin, env: Env, env1: Env, outer: Scope, outer1: Scope, n: Node)
    requires n.Select? && Ready(c, n) && Twinned(c, PgFree(n, env.Keys)) && FramesRel(c, outer, outer1)
    requires env1.Keys == env.Keys + Aliases(n.ctes)
    ensures GroupsRel(c, EvalParts(c.lib, c.a, env1, outer, n), EvalParts(c.lib, c.b, env1, outer1, n))
    decreases n, 1, 0
  {
    StableKept(c, env, env1, outer, outer1, n);
    var fs, gs := EvalKept(c.lib, c.a, env1, outer, n), EvalKept(c.lib, c.b, env1, outer1, n);
    if n.keys != [] {
      RestTwinned(c, n, env.Keys, n.keys);
      StableKeys(c, env1, outer, outer1, fs, gs, n.keys);
      PartitionRel(c, fs, gs, EvalKeys(c.lib, c.a, env1, outer, fs, n.keys));
    }
  }

  lemma {:induction false} StableKept(c: Twin, env: Env, env1: Env, outer: Scope, outer1: Scope, n: Node)
    requires n.Select? && Ready(c, n) && Twinned(c, PgFree(n, env.Keys)) && FramesRel(c, outer, outer1)
    requires env1.Keys == env.Keys + Aliases(n.ctes)
    ensures FramesRel(c, EvalKept(c.lib, c.a, env1, outer, n), EvalKept(c.lib, c.b, env1, outer1, n))
    decreases n, 0
  {
    RestTwinned(c, n, env.Keys, n.sources);
    StableFroms(c, env1, outer, outer1, n.sources);
    var fs, gs := EvalFroms(c.lib, c.a, env1, outer, n.sources), EvalFroms(c.lib, c.b, env1, outer1, n.sources);
    if n.cond.Some? {
      assert n.cond.value in OptSeq(n.cond);
      RestTwinned(c, n, env.Keys, [n.cond.value]);
      assert [n.cond.value][0] == n.cond.value;
      StableFlags(c, env1, outer, outer1, fs, gs, n.cond.value);
      KeepRel(c, fs, gs, EvalFlags(c.lib, c.a, env1, outer, fs, n.cond.value));
    }
  }

  lemma {:induction false} StableCtes(c: Twin, ctx: Node, env: Env, outer: Scope, outer1: Scope, cs: seq<Node>)
    requires Under(cs, ctx) && Twinned(c, PgFreeCtes(ctx, cs, env.Keys)) && FramesRel(c, outer, outer1)
    requires forall i | 0 <= i < |cs| :: cs[i].Cte? ==> Ready(c, cs[i])
    ensures EvalCtes(c.lib, c.a, env, outer, cs) == EvalCtes(c.lib, c.b, env, outer1, cs)
    decreases cs, 0
  {
    if cs != [] {
      var env1 := env;
      if cs[0].Cte? {
        var body := cs[0].body;
        if IsQuery(body) {
          PartTwinned(c, cs[0], env.Keys, body);
          StableQ(c, env, outer, outer1, body);
        }
        env1 := env[cs[0].alias := EvalQ(c.lib, c.a, env, outer, body)];
      }
      assert env1.Keys == env.Keys + AliasOf(cs[0]);
      StableCtes(c, ctx, env1, outer, outer1, cs[1..]);
    }
  }

  lemma {:induction false} StableFroms(c: Twin, env: Env, outer: Scope, outer1: Scope, ns: seq<Node>)
    requires ListReady(c, ns) && ListTwinned(c, ns, env.Keys) && FramesRel(c, outer, outer1)
    ensures FramesRel(c, EvalFroms(c.lib, c.a, env, outer, ns), EvalFroms(c.lib, c.b, env, outer1, ns))
    decreases ns, 0
  {
    if ns != [] {
      StableF(c, env, outer, outer1, ns[0]);
      StableFroms(c, env, outer, outer1, ns[1..]);
      ProductRel(c, EvalF(c.lib, c.a, env, outer, ns[0]), EvalF(c.lib, c.b, env, outer1, ns[0]),
                 EvalFroms(c.lib, c.a, env, outer, ns[1..]), EvalFroms(c.lib, c.b, env, outer1, ns[1..]));
    }
  }

  lemma {:induction false} StableF(c: Twin, env: Env, outer: Scope, outer1: Scope, n: Node)
    requires Ready(c, n) && Twinned(c, PgFree(n, env.Keys)) && FramesRel(c, outer, outer1)
    ensures FramesRel(c, EvalF(c.lib, c.a, env, outer, n), EvalF(c.lib, c.b, env, outer1, n))
    decreases n, 4
  {
    if n.Table? {
      StableTable(c, env, n);
    } else if n.Derived? {
      PartTwinned(c, n, env.Keys, n.query);
      if IsQuery(n.query) { StableQ(c, env, outer, outer1, n.query); }
      BindRel(c, n.alias, EvalQ(c.lib, c.a, env, outer, n.query), EvalQ(c.lib, c.b, env, outer1, n.query));
    } else if n.Join? {
      StableJoin(c, env, outer, outer1, n);
    }
  }

  lemma {:induction false} StableJoin(c: Twin, env: Env, outer: Scope, outer1: Scope, n: Node)
    requires n.Join? && Ready(c, n) && Twinned(c, PgFree(n, env.Keys)) && FramesRel(c, outer, outer1)
    ensures FramesRel(c, EvalF(c.lib, c.a, env, outer, n), EvalF(c.lib, c.b, env, outer1, n))
    decreases n, 3
  {
    PartTwinned(c, n, env.Keys, n.left);
    PartTwinned(c, n, env.Keys, n.right);
    StableF(c, env, outer, outer1, n.left);
    StableF(c, env, outer, outer1, n.right);
    var l, l1 := EvalF(c.lib, c.a, env, outer, n.left), EvalF(c.lib, c.b, env, outer1, n.left);
    var r, r1 := EvalF(c.lib, c.a, env, outer, n.right), EvalF(c.lib, c.b, env, outer1, n.right);
    StableLeftRows(c, env, outer, outer1, n, l, l1, r, r1);
    if KeepsRight(n.side) {
      StableRightRows(c, env, outer, outer1, n, l, l1, r, r1);
      FramesConcatRel(c, EvalLeftRows(c.lib, c.a, env, outer, n, l, r), EvalLeftRows(c.lib, c.b, env, outer1, n, l1, r1),
                      EvalRightRows(c.lib, c.a, env, outer, n, l, r), EvalRightRows(c.lib, c.b, env, outer1, n, l1, r1));
    }
  }

  lemma FramesConcatRel(c: Twin, fs: seq<Frame>, fs1: seq<Frame>, gs: seq<Frame>, gs1: seq<Frame>)
    requires FramesRel(c, fs, fs1) && FramesRel(c, gs, gs1)
    ensures FramesRel(c, fs + gs, fs1 + gs1)
  {
  }

  lemma ProbeRel(c: Twin, f: Frame, f1: Frame, r: seq<Frame>, r1: seq<Frame>)
    requires FrameRel(c, f, f1) && FramesRel(c, r, r1)
    ensures FramesRel(c, Probe(f, r), Probe(f1, r1))
  {
    forall j | 0 <= j < |r| ensures FrameRel(c, Probe(f, r)[j], Probe(f1, r1)[j]) {
      FrameConcatRel(c, f, f1, r[j], r1[j]);
    }
  }

  lemma NullsRel(c: Twin, fs: seq<Frame>, gs: seq<Frame>)
    requires FramesRel(c, fs, gs)
    ensures FrameRel(c, Nulls(fs), Nulls(gs))
  {
    if fs != [] {
      forall i | 0 <= i < |fs[0]| ensures BindingRel(c, Nulls(fs)[i], Nulls(gs)[i]) {
        assert BindingRel(c, fs[0][i], gs[0][i]);
        var t, u := fs[0][i].tuple, gs[0][i].tuple;
        if t != u { assert NullTuple(u)[..|t|] == NullTuple(t); }
      }
    }
  }

  lemma {:induction false} StableMatches(c: Twin, env: Env, outer: Scope, outer1: Scope, n: Node, f: Frame, f1: Frame, r: seq<Frame>, r1: seq<Frame>)
    requires n.Join? && Ready(c, n) && Twinned(c, PgFree(n, env.Keys)) && FramesRel(c, outer, outer1)
    requires FrameRel(c, f, f1) && FramesRel(c, r, r1)
    ensures EvalMatches(c.lib, c.a, env, outer, n, f, r) == EvalMatches(c.lib, c.b, env, outer1, n, f1, r1)
    decreases n, 0
  {
    if n.natural {
      SameFrames(c, [f], [f1]);
      assert [f][0] == [f1][0];
      SameFrames(c, r, r1);
    } else if n.on.Some? {
      assert n.on.value in OptSeq(n.on);
      PartTwinned(c, n, env.Keys, n.on.value);
      ProbeRel(c, f, f1, r, r1);
      StableFlags(c, env, outer, outer1, Probe(f, r), Probe(f1, r1), n.on.value);
    }
  }

  lemma {:induction false} StableLeftRows(c: Twin, env: Env, outer: Scope, outer1: Scope, n: Node,
                                          l: seq<Frame>, l1: seq<Frame>, r: seq<Frame>, r1: seq<Frame>)
    requires n.Join? && Ready(c, n) && Twinned(c, PgFree(n, env.Keys)) && FramesRel(c, outer, outer1)
    requires FramesRel(c, l, l1) && FramesRel(c, r, r1)
    ensures FramesRel(c, EvalLeftRows(c.lib, c.a, env, outer, n, l, r), EvalLeftRows(c.lib, c.b, env, outer1, n, l1, r1))
    decreases n, 1, |l|
  {
    if l != [] {
      assert FrameRel(c, l[0], l1[0]);
      StableMatches(c, env, outer, outer1, n, l[0], l1[0], r, r1);
      var flags := EvalMatches(c.lib, c.a, env, outer, n, l[0], r);
      PaddedRel(c, n.side, l[0], l1[0], r, r1, flags);
      StableLeftRows(c, env, outer, outer1, n, l[1..], l1[1..], r, r1);
      FramesConcatRel(c, Padded(n.side, l[0], r, Keep(Probe(l[0], r), flags)), Padded(n.side, l1[0], r1, Keep(Probe(l1[0], r1), flags)),
                      EvalLeftRows(c.lib, c.a, env, outer, n, l[1..], r), EvalLeftRows(c.lib, c.b, env, outer1, n, l1[1..], r1));
    }
  }

  lemma PaddedRel(c: Twin, side: JoinSide, f: Frame, f1: Frame, r: seq<Frame>, r1: seq<Frame>, flags: seq<bool>)
    requires FrameRel(c, f, f1) && FramesRel(c, r, r1) && |flags| == |r|
    ensures FramesRel(c, Padded(side, f, r, Keep(Probe(f, r), flags)), Padded(side, f1, r1, Keep(Probe(f1, r1), flags)))
  {
    ProbeRel(c, f, f1, r, r1);
    KeepRel(c, Probe(f, r), Probe(f1, r1), flags);
    NullsRel(c, r, r1);
    FrameConcatRel(c, f, f1, Nulls(r), Nulls(r1));
  }

  lemma {:induction false} StableRightRows(c: Twin, env: Env, outer: Scope, outer1: Scope, n: Node,
                                           l: seq<Frame>, l1: seq<Frame>, r: seq<Frame>, r1: seq<Frame>)
    requires n.Join? && Ready(c, n) && Twinned(c, PgFree(n, env.Keys)) && FramesRel(c, outer, outer1)
    requires FramesRel(c, l, l1) && FramesRel(c, r, r1)
    ensures FramesRel(c, EvalRightRows(c.lib, c.a, env, outer, n, l, r), EvalRightRows(c.lib, c.b, env, outer1, n, l1, r1))
    decreases n, 2, |r|
  {
    if r != [] {
      assert FrameRel(c, r[0], r1[0]);
      StableMatched(c, env, outer, outer1, n, l, l1, r[0], r1[0]);
      NullsRel(c, l, l1);
      FrameConcatRel(c, Nulls(l), Nulls(l1), r[0], r1[0]);
      StableRightRows(c, env, outer, outer1, n, l, l1, r[1..], r1[1..]);
      var met := EvalMatched(c.lib, c.a, env, outer, n, l, r[0]);
      FramesConcatRel(c, if met then [] else [Nulls(l) + r[0]], if met then [] else [Nulls(l1) + r1[0]],
                      EvalRightRows(c.lib, c.a, env, outer, n, l, r[1..]), EvalRightRows(c.lib, c.b, env, outer1, n, l1, r1[1..]));
    }
  }

  lemma {:induction false} StableMatched(c: Twin, env: Env, outer: Scope, outer1: Scope, n: Node,
                                         l: seq<Frame>, l1: seq<Frame>, g: Frame, g1: Frame)
    requires n.Join? && Ready(c, n) && Twinned(c, PgFree(n, env.Keys)) && FramesRel(c, outer, outer1)
    requires FramesRel(c, l, l1) && FrameRel(c, g, g1)
    ensures EvalMatched(c.lib, c.a, env, outer, n, l, g) == EvalMatched(c.lib, c.b, env, outer1, n, l1, g1)
    decreases n, 1, |l|
  {
    if l != [] {
      assert FrameRel(c, l[0], l1[0]);
      StableMatches(c, env, outer, outer1, n, l[0], l1[0], [g], [g1]);
      StableMatched(c, env, outer, outer1, n, l[1..], l1[1..], g, g1);
    }
  }

  lemma StableTable(c: Twin, env: Env, n: Node)
    requires n.Table? && Ready(c, n) && Twinned(c, PgFree(n, env.Keys))
    ensures FramesRel(c, EvalF(c.lib, c.a, env, [], n), EvalF(c.lib, c.b, env, [], n))
  {
    if n.schema == "" && n.name in env {
      BindRel(c, EffAlias(n), env[n.name], env[n.name]);
    } else {
      var r, s := Lookup(c.a, (n.schema, n.name)), Lookup(c.b, (n.schema, n.name));
      assert (n.schema, n.name) in PgFree(n, env.Keys);
      forall i | 0 <= i < |r| ensures c.extra == {} ==> r[i] == s[i] {
        assert Extended(r[i], s[i], c.extra);
      }
      BindRel(c, EffAlias(n), r, s);
    }
  }

  lemma {:induction false} StableE(c: Twin, env: Env, outer: Scope, outer1: Scope, group: seq<Frame>, group1: seq<Frame>, n: Node)
    requires Ready(c, n) && Twinned(c, PgFree(n, env.Keys))
    requires FramesRel(c, outer, outer1) && FramesRel(c, group, group1)
    ensures EvalE(c.lib, c.a, env, outer, group, n) == EvalE(c.lib, c.b, env, outer1, group1, n)
    decreases n, 4
  {
    hide EvalE, Ready, Twinned, PgFree, FramesRel;
    if n.Col? || n.Star? {
      StableName(c, env, outer, outer1, group, group1, n);
    } else if n.Count? {
      StableCount(c, env, outer, outer1, group, group1, n);
    } else if n.Agg? || n.As? {
      StableArgument(c, env, outer, outer1, group, group1, n);
    } else if n.Call? {
      StableCall(c, env, outer, outer1, group, group1, n);
    } else if n.Test? {
      StableTest(c, env, outer, outer1, group, group1, n);
    } else if IsQuery(n) {
      StableScalar(c, env, outer, outer1, group, group1, n);
    } else {
      StableLeaf(c, env, outer, outer1, group, group1, n);
    }
  }

  lemma StableLeaf(c: Twin, env: Env, outer: Scope, outer1: Scope, group: seq<Frame>, group1: seq<Frame>, n: Node)
    requires !n.Col? && !n.Star? && !n.Count? && !n.Agg? && !n.As? && !n.Call? && !n.Test? && !IsQuery(n)
    ensures EvalE(c.lib, c.a, env, outer, group, n) == EvalE(c.lib, c.b, env, outer1, group1, n)
  {
  }

  lemma {:induction false} StableArgument(c: Twin, env: Env, outer: Scope, outer1: Scope, group: seq<Frame>, group1: seq<Frame>, n: Node)
    requires (n.Agg? || n.As?) && Ready(c, n) && Twinned(c, PgFree(n, env.Keys))
    requires FramesRel(c, outer, outer1) && FramesRel(c, group, group1)
    ensures EvalE(c.lib, c.a, env, outer, group, n) == EvalE(c.lib, c.b, env, outer1, group1, n)
    decreases n, 3
  {
    if n.Agg? {
      PartTwinned(c, n, env.Keys, n.arg);
      StableEach(c, env, outer, outer1, group, group1, n.arg);
    } else {
      PartTwinned(c, n, env.Keys, n.e);
      StableE(c, env, outer, outer1, group, group1, n.e);
    }
  }

  lemma {:induction false} StableScalar(c: Twin, env: Env, outer: Scope, outer1: Scope, group: seq<Frame>, group1: seq<Frame>, n: Node)
    requires IsQuery(n) && Ready(c, n) && Twinned(c, PgFree(n, env.Keys))
    requires FramesRel(c, outer, outer1) && FramesRel(c, group, group1)
    ensures EvalE(c.lib, c.a, env, outer, group, n) == EvalE(c.lib, c.b, env, outer1, group1, n)
    decreases n, 3, 1
  {
    CurrentRel(c, outer, outer1, group, group1);
    StableQ(c, env, [Current(group)] + outer, [Current(group1)] + outer1, n);
  }

  /** A column, or a star where no column may be added. */
  lemma StableName(c: Twin, env: Env, outer: Scope, outer1: Scope, group: seq<Frame>, group1: seq<Frame>, n: Node)
    requires (n.Col? || n.Star?) && Ready(c, n)
    requires FramesRel(c, outer, outer1) && FramesRel(c, group, group1)
    ensures EvalE(c.lib, c.a, env, outer, group, n) == EvalE(c.lib, c.b, env, outer1, group1, n)
  {
    CurrentRel(c, outer, outer1, group, group1);
    if c.extra == {} {
      SameFrames(c, [Current(group)] + outer, [Current(group1)] + outer1);
    } else {
      ResolveRel(c, [Current(group)] + outer, [Current(group1)] + outer1, n.qual, n.name);
    }
  }

  lemma {:induction false} StableCount(c: Twin, env: Env, outer: Scope, outer1: Scope, group: seq<Frame>, group1: seq<Frame>, n: Node)
    requires n.Count? && Ready(c, n) && Twinned(c, PgFree(n, env.Keys))
    requires FramesRel(c, outer, outer1) && FramesRel(c, group, group1)
    ensures EvalE(c.lib, c.a, env, outer, group, n) == EvalE(c.lib, c.b, env, outer1, group1, n)
    decreases n, 3
  {
    if c.extra != {} && !n.distinct && n.arg.Star? {
      CountStar(c, env, outer, outer1, group, group1, n.arg);
    } else {
      PartTwinned(c, n, env.Keys, n.arg);
      StableEach(c, env, outer, outer1, group, group1, n.arg);
    }
  }

  lemma {:induction false} StableCall(c: Twin, env: Env, outer: Scope, outer1: Scope, group: seq<Frame>, group1: seq<Frame>, n: Node)
    requires n.Call? && Ready(c, n) && Twinned(c, PgFree(n, env.Keys))
    requires FramesRel(c, outer, outer1) && FramesRel(c, group, group1)
    ensures EvalE(c.lib, c.a, env, outer, group, n) == EvalE(c.lib, c.b, env, outer1, group1, n)
    decreases n, 3
  {
    forall i | 0 <= i < |n.args| ensures Twinned(c, PgFree(n.args[i], env.Keys)) {
      PartTwinned(c, n, env.Keys, n.args[i]);
    }
    StableList(c, env, outer, outer1, group, group1, n.args);
  }

  lemma {:induction false} StableTest(c: Twin, env: Env, outer: Scope, outer1: Scope, group: seq<Frame>, group1: seq<Frame>, n: Node)
    requires n.Test? && Ready(c, n) && Twinned(c, PgFree(n, env.Keys))
    requires FramesRel(c, outer, outer1) && FramesRel(c, group, group1)
    ensures EvalE(c.lib, c.a, env, outer, group, n) == EvalE(c.lib, c.b, env, outer1, group1, n)
    decreases n, 3
  {
    PartTwinned(c, n, env.Keys, n.e);
    PartTwinned(c, n, env.Keys, n.query);
    StableE(c, env, outer, outer1, group, group1, n.e);
    CurrentRel(c, outer, outer1, group, group1);
    if IsQuery(n.query) { StableQ(c, env, [Current(group)] + outer, [Current(group1)] + outer1, n.query); }
  }

  lemma {:induction false} StableEach(c: Twin, env: Env, outer: Scope, outer1: Scope, fs: seq<Frame>, gs: seq<Frame>, n: Node)
    requires Ready(c, n) && Twinned(c, PgFree(n, env.Keys))
    requires FramesRel(c, outer, outer1) && FramesRel(c, fs, gs)
    ensures EvalEach(c.lib, c.a, env, outer, fs, n) == EvalEach(c.lib, c.b, env, outer1, gs, n)
    decreases n, 5
  {
    forall i | 0 <= i < |fs|
      ensures EvalE(c.lib, c.a, env, outer, [fs[i]], n) == EvalE(c.lib, c.b, env, outer1, [gs[i]], n)
    {
      StableE(c, env, outer, outer1, [fs[i]], [gs[i]], n);
    }
  }

  lemma {:induction false} StableFlags(c: Twin, env: Env, outer: Scope, outer1: Scope, fs: seq<Frame>, gs: seq<Frame>, n: Node)
    requires Ready(c, n) && Twinned(c, PgFree(n, env.Keys))
    requires FramesRel(c, outer, outer1) && FramesRel(c, fs, gs)
    ensures EvalFlags(c.lib, c.a, env, outer, fs, n) == EvalFlags(c.lib, c.b, env, outer1, gs, n)
    decreases n, 6
  {
    StableEach(c, env, outer, outer1, fs, gs, n);
  }

  lemma {:induction false} StableList(c: Twin, env: Env, outer: Scope, outer1: Scope, group: seq<Frame>, group1: seq<Frame>, ns: seq<Node>)
    requires ListReady(c, ns) && ListTwinned(c, ns, env.Keys)
    requires FramesRel(c, outer, outer1) && FramesRel(c, group, group1)
    ensures EvalList(c.lib, c.a, env, outer, group, ns) == EvalList(c.lib, c.b, env, outer1, group1, ns)
    decreases ns, 0
  {
    if ns != [] {
      StableE(c, env, outer, outer1, group, group1, ns[0]);
      StableList(c, env, outer, outer1, group, group1, ns[1..]);
    }
  }

  lemma {:induction false} StableKeys(c: Twin, env: Env, outer: Scope, outer1: Scope, fs: seq<Frame>, gs: seq<Frame>, ns: seq<Node>)
    requires ListReady(c, ns) && ListTwinned(c, ns, env.Keys)
    requires FramesRel(c, outer, outer1) && FramesRel(c, fs, gs)
    ensures EvalKeys(c.lib, c.a, env, outer, fs, ns) == EvalKeys(c.lib, c.b, env, outer1, gs, ns)
    decreases ns, 1
  {
    forall i | 0 <= i < |fs|
      ensures EvalList(c.lib, c.a, env, outer, [fs[i]], ns) == EvalList(c.lib, c.b, env, outer1, [gs[i]], ns)
    {
      StableList(c, env, outer, outer1, [fs[i]], [gs[i]], ns);
    }
  }

  lemma {:induction false} StableTuple(c: Twin, env: Env, outer: Scope, outer1: Scope, group: seq<Frame>, group1: seq<Frame>, ps: seq<Node>)
    requires ListReady(c, ps) && ListTwinned(c, ps, env.Keys)
    requires FramesRel(c, outer, outer1) && FramesRel(c, group, group1)
    ensures EvalTuple(c.lib, c.a, env, outer, group, ps) == EvalTuple(c.lib, c.b, env, outer1, group1, ps)
    decreases ps, 0
  {
    if ps != [] {
      StableE(c, env, outer, outer1, group, group1, ps[0]);
      StableTuple(c, env, outer, outer1, group, group1, ps[1..]);
    }
  }
}
