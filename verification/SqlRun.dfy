/** What the server may do with any statement tree, and why a harmless one only computes.

    `RunQ` threads a world through evaluation: data-modifying CTE bodies, `SELECT INTO`, recursive CTEs,
    row-expanding functions and functions with side effects all act here. On a tree whose nodes are all
    `Harmless` it returns exactly what `EvalQ` computes and hands the world back unchanged. */
module SqlRun {
  import opened Prelude
  import opened SqlTree
  import opened SqlEval

  datatype World = World(tables: Tables, sequences: map<string, int>, identity: string)

  /** `call` is any server function: it may change the world and may return any number of rows; `fold` is
      any aggregate. A bare keyword such as `current_user` reads the server's identity. */
  datatype Server = Server(lib: Library, keywords: set<string>,
                           call: (string, bool, seq<Value>, World) -> (seq<Value>, World),
                           fold: (string, seq<Value>, World) -> (Value, World))

  datatype Out<T> = Out(v: T, w: World)

  datatype DenyLists = DenyLists(exact: set<string>, prefixes: seq<string>, srf: set<string>, keywords: set<string>)

  predicate Denied(d: DenyLists, name: string) {
    name != "" && (name in d.srf || name in d.exact || exists i | 0 <= i < |d.prefixes| :: StartsWith(name, d.prefixes[i]))
  }

  /** The deny lists name every function and keyword that reads or writes more than its arguments. */
  ghost predicate Honest(s: Server, d: DenyLists) {
    && s.keywords <= d.keywords
    && (forall name, args, w :: !Denied(d, name) ==> s.call(name, false, args, w) == ([s.lib.scalar(name, args)], w))
    && forall name, args, w :: !Denied(d, name) ==> s.fold(name, args, w) == (s.lib.agg(name, args), w)
  }

  /** The conditions the validator imposes on each node by itself. */
  predicate Harmless(d: DenyLists, n: Node) {
    match n
    case Cte(_, body) => IsQuery(body)
    case Select(_, recursive, _, _, _, _, _, _, _, _, into) => !recursive && into.None?
    case SetOp(_, recursive, _, _, _, _, _) => !recursive
    case Call(fn, typedSrf, _) => !typedSrf && !Denied(d, fn)
    case Agg(fn, _) => !Denied(d, fn)
    case TableFunc(_) => false
    case Col(qual, name) => qual.None? ==> name !in d.keywords
    case _ => true
  }

  ghost predicate AllHarmless(d: DenyLists, n: Node) { forall m | m in Nodes(n) :: Harmless(d, m) }

  ghost predicate ListHarmless(d: DenyLists, ns: seq<Node>) { forall i | 0 <= i < |ns| :: AllHarmless(d, ns[i]) }

  // ----- execution -----

  function Fan(heads: Rel, tails: Rel): Rel {
    if heads == [] then [] else seq(|tails|, i requires 0 <= i < |tails| => heads[0] + tails[i]) + Fan(heads[1..], tails)
  }

  function Heads(p: Node, vs: seq<Value>): Rel { seq(|vs|, i requires 0 <= i < |vs| => Head(p, vs[i])) }

  function TargetId(n: Node): TableId { if n.Table? then (n.schema, n.name) else ("", "") }

  function RunQ(s: Server, fuel: nat, w: World, env: Env, outer: Scope, n: Node): Out<Rel>
    decreases n, 2
  {
    match n
    case Select(ctes, recursive, _, _, _, _, _, _, _, limit, into) =>
      var c := RunCtes(s, fuel, w, env, outer, recursive, ctes);
      var r := RunSelect(s, fuel, c.w, c.v, outer, n);
      var l := RunLimit(s, fuel, r.w, c.v, limit);
      var rows := Cut(r.v, l.v);
      Out(rows, if into.None? then l.w else l.w.(tables := l.w.tables[("", into.value) := rows]))
    case SetOp(ctes, recursive, _, left, right, _, limit) =>
      var c := RunCtes(s, fuel, w, env, outer, recursive, ctes);
      var a := RunQ(s, fuel, c.w, c.v, outer, left);
      var b := RunQ(s, fuel, a.w, c.v, outer, right);
      var l := RunLimit(s, fuel, b.w, c.v, limit);
      Out(Cut(Arranged(s.lib, n, a.v, b.v), l.v), l.w)
    case _ => Out([], w)
  }

  function RunSelect(s: Server, fuel: nat, w: World, env: Env, outer: Scope, n: Node): Out<Rel>
    requires n.Select?
    decreases n, 1
  {
    var g := RunGroups(s, fuel, w, env, outer, n);
    var x := RunRows(s, fuel, g.w, env, outer, g.v, n);
    Out(Arrange(s.lib, n.order, n.distinct, x.v), x.w)
  }

  function RunGroups(s: Server, fuel: nat, w: World, env: Env, outer: Scope, n: Node): Out<seq<seq<Frame>>>
    requires n.Select?
    decreases n, 0, 1
  {
    var g := RunParts(s, fuel, w, env, outer, n);
    if n.having.None? then g
    else
      var h := RunInGroups(s, fuel, g.w, env, outer, g.v, n.having.value);
      Out(Keep(g.v, Holds(h.v)), h.w)
  }

  function RunParts(s: Server, fuel: nat, w: World, env: Env, outer: Scope, n: Node): Out<seq<seq<Frame>>>
    requires n.Select?
    decreases n, 0, 0
  {
    var f := RunFroms(s, fuel, w, env, outer, n.sources);
    var k := if n.cond.None? then f else RunKeep(s, fuel, f.w, env, outer, f.v, n.cond.value);
    if n.keys != [] then
      var ks := RunKeys(s, fuel, k.w, env, outer, k.v, n.keys);
      Out(Partition(k.v, ks.v), ks.w)
    else Out(if Grouped(n) then [k.v] else Singles(k.v), k.w)
  }

  function RunInGroups(s: Server, fuel: nat, w: World, env: Env, outer: Scope, groups: seq<seq<Frame>>, n: Node): (o: Out<seq<Value>>)
    ensures |o.v| == |groups|
    decreases n, 4, |groups|
  {
    if groups == [] then Out([], w)
    else
      var h := RunE(s, fuel, w, env, outer, groups[0], n);
      var t := RunInGroups(s, fuel, h.w, env, outer, groups[1..], n);
      Out([h.v] + t.v, t.w)
  }

  function RunLimit(s: Server, fuel: nat, w: World, env: Env, limit: Option<Node>): Out<Option<Value>>
    decreases limit, 3
  {
    if limit.None? then Out(None, w)
    else if Constant(limit.value) then
      var r := RunE(s, fuel, w, env, [], [], limit.value);
      Out(Some(r.v), r.w)
    else Out(Some(Fault), w)
  }

  function RunCtes(s: Server, fuel: nat, w: World, env: Env, outer: Scope, recursive: bool, cs: seq<Node>): Out<Env>
    decreases cs, 0
  {
    if cs == [] then Out(env, w)
    else if cs[0].Cte? then
      var b := RunBody(s, fuel, w, env, outer, recursive, cs[0].alias, cs[0].body);
      RunCtes(s, fuel, b.w, env[cs[0].alias := b.v], outer, recursive, cs[1..])
    else RunCtes(s, fuel, w, env, outer, recursive, cs[1..])
  }

  function RunBody(s: Server, fuel: nat, w: World, env: Env, outer: Scope, recursive: bool, alias: string, body: Node): Out<Rel>
    decreases body, 5
  {
    match body
    case Insert(target, source) =>
      var r := RunQ(s, fuel, w, env, outer, source);
      var t := TargetId(target);
      Out(r.v, r.w.(tables := r.w.tables[t := Lookup(r.w.tables, t) + r.v]))
    case Delete(target) =>
      var t := TargetId(target);
      Out(Lookup(w.tables, t), w.(tables := w.tables[t := []]))
    case SetOp(_, _, _, left, right, _, _) =>
      if recursive then
        var base := RunQ(s, fuel, w, env, outer, left);
        RunRounds(s, fuel, base.w, env, outer, alias, right, base.v, base.v, fuel)
      else RunQ(s, fuel, w, env, outer, body)
    case _ => RunQ(s, fuel, w, env, outer, body)
  }

  /** Iterate a recursive CTE until it adds nothing or the statement timeout cuts it off. */
  function RunRounds(s: Server, fuel: nat, w: World, env: Env, outer: Scope, alias: string, step: Node,
                     all: Rel, last: Rel, rounds: nat): Out<Rel>
    decreases step, 4, rounds
  {
    if rounds == 0 || last == [] then Out(all, w)
    else
      var r := RunQ(s, fuel, w, env[alias := last], outer, step);
      RunRounds(s, fuel, r.w, env, outer, alias, step, all + r.v, r.v, rounds - 1)
  }

  function RunFroms(s: Server, fuel: nat, w: World, env: Env, outer: Scope, ns: seq<Node>): Out<seq<Frame>>
    decreases ns, 0
  {
    if ns == [] then Out([[]], w)
    else
      var f := RunF(s, fuel, w, env, outer, ns[0]);
      var r := RunFroms(s, fuel, f.w, env, outer, ns[1..]);
      Out(Product(f.v, r.v), r.w)
  }

  function RunF(s: Server, fuel: nat, w: World, env: Env, outer: Scope, n: Node): Out<seq<Frame>>
    decreases n, 3
  {
    match n
    case Table(schema, name, _) =>
      Out(Bind(EffAlias(n), if schema == "" && name in env then env[name] else Lookup(w.tables, (schema, name))), w)
    case TableFunc(call) =>
      var r := RunValues(s, fuel, w, env, outer, [], call);
      Out(seq(|r.v|, i requires 0 <= i < |r.v| => [Binding("", [Field("", r.v[i])], false)]), r.w)
    case Derived(query, alias) =>
      var r := RunQ(s, fuel, w, env, outer, query);
      Out(Bind(alias, r.v), r.w)
    case Join(_, side, left, right, _) =>
      var l := RunF(s, fuel, w, env, outer, left);
      var r := RunF(s, fuel, l.w, env, outer, right);
      var a := RunLeftRows(s, fuel, r.w, env, outer, n, l.v, r.v);
      if KeepsRight(side) then
        var b := RunRightRows(s, fuel, a.w, env, outer, n, l.v, r.v);
        Out(a.v + b.v, b.w)
      else a
    case _ => Out([], w)
  }

  function RunMatches(s: Server, fuel: nat, w: World, env: Env, outer: Scope, n: Node, f: Frame, r: seq<Frame>): (o: Out<seq<bool>>)
    requires n.Join?
    ensures |o.v| == |r|
    decreases n, 0
  {
    if n.natural then Out(seq(|r|, j requires 0 <= j < |r| => NaturalMatch(f, r[j])), w)
    else if n.on.None? then Out(seq(|r|, j requires 0 <= j < |r| => true), w)
    else
      var e := RunEach(s, fuel, w, env, outer, Probe(f, r), n.on.value);
      Out(Holds(e.v), e.w)
  }

  function RunLeftRows(s: Server, fuel: nat, w: World, env: Env, outer: Scope, n: Node, l: seq<Frame>, r: seq<Frame>): Out<seq<Frame>>
    requires n.Join?
    decreases n, 1, |l|
  {
    if l == [] then Out([], w)
    else
      var h := RunMatches(s, fuel, w, env, outer, n, l[0], r);
      var t := RunLeftRows(s, fuel, h.w, env, outer, n, l[1..], r);
      Out(Padded(n.side, l[0], r, Keep(Probe(l[0], r), h.v)) + t.v, t.w)
  }

  /** The server may test the join condition again to find the unmatched right rows. */
  function RunRightRows(s: Server, fuel: nat, w: World, env: Env, outer: Scope, n: Node, l: seq<Frame>, r: seq<Frame>): Out<seq<Frame>>
    requires n.Join?
    decreases n, 2, |r|
  {
    if r == [] then Out([], w)
    else
      var h := RunMatched(s, fuel, w, env, outer, n, l, r[0]);
      var t := RunRightRows(s, fuel, h.w, env, outer, n, l, r[1..]);
      Out((if h.v then [] else [Nulls(l) + r[0]]) + t.v, t.w)
  }

  function RunMatched(s: Server, fuel: nat, w: World, env: Env, outer: Scope, n: Node, l: seq<Frame>, g: Frame): Out<bool>
    requires n.Join?
    decreases n, 1, |l|
  {
    if l == [] then Out(false, w)
    else
      var h := RunMatches(s, fuel, w, env, outer, n, l[0], [g]);
      if h.v[0] then Out(true, h.w) else RunMatched(s, fuel, h.w, env, outer, n, l[1..], g)
  }

  function RunE(s: Server, fuel: nat, w: World, env: Env, outer: Scope, group: seq<Frame>, n: Node): Out<Value>
    decreases n, 3
  {
    match n
    case Lit(v) => Out(v, w)
    case Col(qual, name) =>
      if qual.None? && name in s.keywords then Out(Str(w.identity), w)
      else Out(Resolve([Current(group)] + outer, qual, name), w)
    case Star(of) => Out(ResolveStar([Current(group)] + outer, of), w)
    case Count(distinct, arg) =>
      var r := RunEach(s, fuel, w, env, outer, group, arg);
      Out(CountOf(distinct, r.v), r.w)
    case Agg(fn, arg) =>
      var r := RunEach(s, fuel, w, env, outer, group, arg);
      var f := s.fold(fn, r.v, r.w);
      Out(f.0, f.1)
    case Call(_, _, _) =>
      var r := RunCall(s, fuel, w, env, outer, group, n);
      Out(if r.v == [] then Null else r.v[0], r.w)
    case As(e, _) => RunE(s, fuel, w, env, outer, group, e)
    case Test(op, e, query) =>
      var a := RunE(s, fuel, w, env, outer, group, e);
      var r := RunQ(s, fuel, a.w, env, [Current(group)] + outer, query);
      Out(s.lib.test(op, a.v, Bare(r.v)), r.w)
    case Select(_, _, _, _, _, _, _, _, _, _, _) =>
      var r := RunQ(s, fuel, w, env, [Current(group)] + outer, n);
      Out(ScalarOf(r.v), r.w)
    case SetOp(_, _, _, _, _, _, _) =>
      var r := RunQ(s, fuel, w, env, [Current(group)] + outer, n);
      Out(ScalarOf(r.v), r.w)
    case _ => Out(Fault, w)
  }

  function RunCall(s: Server, fuel: nat, w: World, env: Env, outer: Scope, group: seq<Frame>, n: Node): Out<seq<Value>>
    requires n.Call?
    decreases n, 0
  {
    var a := RunList(s, fuel, w, env, outer, group, n.args);
    var r := s.call(n.fn, n.typedSrf, a.v, a.w);
    Out(r.0, r.1)
  }

  /** The values one projection contributes: a row-expanding call may contribute any number. */
  function RunValues(s: Server, fuel: nat, w: World, env: Env, outer: Scope, group: seq<Frame>, n: Node): Out<seq<Value>>
    decreases n, 4
  {
    if n.Call? then RunCall(s, fuel, w, env, outer, group, n)
    else if n.As? then RunValues(s, fuel, w, env, outer, group, n.e)
    else
      var r := RunE(s, fuel, w, env, outer, group, n);
      Out([r.v], r.w)
  }

  function RunEach(s: Server, fuel: nat, w: World, env: Env, outer: Scope, frames: seq<Frame>, n: Node): (o: Out<seq<Value>>)
    ensures |o.v| == |frames|
    decreases n, 4, |frames|
  {
    if frames == [] then Out([], w)
    else
      var h := RunE(s, fuel, w, env, outer, [frames[0]], n);
      var t := RunEach(s, fuel, h.w, env, outer, frames[1..], n);
      Out([h.v] + t.v, t.w)
  }

  function RunKeep(s: Server, fuel: nat, w: World, env: Env, outer: Scope, frames: seq<Frame>, n: Node): Out<seq<Frame>>
    decreases n, 5
  {
    var r := RunEach(s, fuel, w, env, outer, frames, n);
    Out(Keep(frames, Holds(r.v)), r.w)
  }

  function RunList(s: Server, fuel: nat, w: World, env: Env, outer: Scope, group: seq<Frame>, ns: seq<Node>): Out<seq<Value>>
    decreases ns, 0
  {
    if ns == [] then Out([], w)
    else
      var h := RunE(s, fuel, w, env, outer, group, ns[0]);
      var t := RunList(s, fuel, h.w, env, outer, group, ns[1..]);
      Out([h.v] + t.v, t.w)
  }

  function RunKeys(s: Server, fuel: nat, w: World, env: Env, outer: Scope, frames: seq<Frame>, ns: seq<Node>): (o: Out<seq<seq<Value>>>)
    ensures |o.v| == |frames|
    decreases ns, 1, |frames|
  {
    if frames == [] then Out([], w)
    else
      var h := RunList(s, fuel, w, env, outer, [frames[0]], ns);
      var t := RunKeys(s, fuel, h.w, env, outer, frames[1..], ns);
      Out([h.v] + t.v, t.w)
  }

  function RunTuple(s: Server, fuel: nat, w: World, env: Env, outer: Scope, group: seq<Frame>, ps: seq<Node>): Out<Rel>
    decreases ps, 0
  {
    if ps == [] then Out([[]], w)
    else
      var h := RunValues(s, fuel, w, env, outer, group, ps[0]);
      var t := RunTuple(s, fuel, h.w, env, outer, group, ps[1..]);
      Out(Fan(Heads(ps[0], h.v), t.v), t.w)
  }

  function RunRows(s: Server, fuel: nat, w: World, env: Env, outer: Scope, groups: seq<seq<Frame>>, n: Node): Out<seq<Ranked>>
    requires n.Select?
    decreases n, 0, |groups|
  {
    if groups == [] then Out([], w)
    else
      var h := RunTuple(s, fuel, w, env, outer, groups[0], n.projs);
      var x := RunRanked(s, fuel, h.w, env, outer, groups[0], h.v, n.order);
      var t := RunRows(s, fuel, x.w, env, outer, groups[1..], n);
      Out(x.v + t.v, t.w)
  }

  /** Output rows of one group with their sort keys. */
  function RunRanked(s: Server, fuel: nat, w: World, env: Env, outer: Scope, group: seq<Frame>, rows: Rel, os: seq<Node>): Out<seq<Ranked>>
    decreases os, 1, |rows|
  {
    if rows == [] then Out([], w)
    else
      var k := RunOrder(s, fuel, w, env, outer, group, rows[0], os);
      var t := RunRanked(s, fuel, k.w, env, outer, group, rows[1..], os);
      Out([Ranked(rows[0], k.v)] + t.v, t.w)
  }

  function RunOrder(s: Server, fuel: nat, w: World, env: Env, outer: Scope, group: seq<Frame>, t: Tuple, os: seq<Node>): Out<seq<Value>>
    decreases os, 0
  {
    if os == [] then Out([], w)
    else
      var h := RunKey(s, fuel, w, env, outer, group, t, os[0]);
      var k := RunOrder(s, fuel, h.w, env, outer, group, t, os[1..]);
      Out([h.v] + k.v, k.w)
  }

  function RunKey(s: Server, fuel: nat, w: World, env: Env, outer: Scope, group: seq<Frame>, t: Tuple, o: Node): Out<Value>
    decreases o, 4
  {
    if !o.Ordered? then Out(Fault, w)
    else if OutputKey(t, o.e).Some? then Out(OutputKey(t, o.e).value, w)
    else RunE(s, fuel, w, env, outer, group, o.e)
  }

  /** A whole statement: fresh environment, no enclosing query. */
  function Run(s: Server, fuel: nat, w: World, n: Node): Out<Rel> { RunQ(s, fuel, w, map[], [], n) }
}
