/** What a read-only query computes.

    A row carries its field names, so a relation is a sequence of tuples. A scope lists one frame per
    enclosing query, innermost first; a frame holds one binding per FROM item. Grouped and ungrouped
    projections are evaluated alike, in a group of frames whose first member is the current row.
    Positions the grammar leaves no meaning for evaluate to nothing. */
module SqlEval {
  import opened Prelude
  import opened SqlTree
  import opened SqlScope

  type Tuple = seq<Field>
  type Rel = seq<Tuple>
  type Tables = map<TableId, Rel>
  type Env = map<string, Rel>
  /** `padded` marks the NULLs an outer join supplies for an unmatched row. */
  datatype Binding = Binding(alias: string, tuple: Tuple, padded: bool)
  type Frame = seq<Binding>
  type Scope = seq<Frame>

  /** The meaning of what neither reads nor writes server state: functions and operators, aggregates,
      tests of a value against the rows of a subquery, and the sort order of values. */
  datatype Library = Library(
    scalar: (string, seq<Value>) -> Value,
    agg: (string, seq<Value>) -> Value,
    test: (string, Value, seq<seq<Value>>) -> Value,
    less: (Value, Value) -> bool)

  // ----- names -----

  function FieldMatches(t: Tuple, name: string): seq<Value> {
    if t == [] then [] else (if t[0].name == name then [t[0].v] else []) + FieldMatches(t[1..], name)
  }

  /** The values of column `name` in the bindings of a frame, restricted to one alias if given. */
  function ColMatches(f: Frame, alias: Option<string>, name: string): seq<Value> {
    if f == [] then []
    else
      (if alias.None? || alias.value == f[0].alias then FieldMatches(f[0].tuple, name) else [])
      + ColMatches(f[1..], alias, name)
  }

  function WholeRow(b: Binding): Value { if b.padded then NullRow(b.tuple) else Row(b.tuple) }

  function RowMatches(f: Frame, alias: string): seq<Value> {
    if f == [] then []
    else (if f[0].alias == alias then [WholeRow(f[0])] else []) + RowMatches(f[1..], alias)
  }

  /** A unique match is the value; several make the reference ambiguous. */
  function Unique(ms: seq<Value>): Value { if |ms| == 1 then ms[0] else Fault }

  function ResolveCol(sc: Scope, name: string): Option<Value> {
    if sc == [] then None
    else
      var ms := ColMatches(sc[0], None, name);
      if ms != [] then Some(Unique(ms)) else ResolveCol(sc[1..], name)
  }

  function ResolveRow(sc: Scope, alias: string): Option<Value> {
    if sc == [] then None
    else
      var ms := RowMatches(sc[0], alias);
      if ms != [] then Some(Unique(ms)) else ResolveRow(sc[1..], alias)
  }

  function ResolveQualified(sc: Scope, alias: string, name: string): Value {
    if sc == [] then Fault
    else if RowMatches(sc[0], alias) != [] then Unique(ColMatches(sc[0], Some(alias), name))
    else ResolveQualified(sc[1..], alias, name)
  }

  /** An unqualified name is a column of some enclosing frame or else a row alias. */
  function ResolveName(sc: Scope, name: string): Value {
    match ResolveCol(sc, name)
    case Some(v) => v
    case None =>
      match ResolveRow(sc, name)
      case Some(v) => v
      case None => Fault
  }

  function Resolve(sc: Scope, qual: Option<string>, name: string): Value {
    match qual
    case None => ResolveName(sc, name)
    case Some(alias) => ResolveQualified(sc, alias, name)
  }

  function FrameTuple(f: Frame): Tuple { if f == [] then [] else f[0].tuple + FrameTuple(f[1..]) }

  function ResolveStar(sc: Scope, of: Option<string>): Value {
    match of
    case None => if sc == [] then Fault else Row(FrameTuple(sc[0]))
    case Some(alias) => match ResolveRow(sc, alias) case Some(v) => v case None => Fault
  }

  // ----- rows -----

  function Keep<T>(xs: seq<T>, flags: seq<bool>): seq<T>
    requires |xs| == |flags|
  {
    if xs == [] then [] else (if flags[0] then [xs[0]] else []) + Keep(xs[1..], flags[1..])
  }

  /** Where a condition's value is true; NULL and errors are not. */
  function Holds(vs: seq<Value>): (bs: seq<bool>)
    ensures |bs| == |vs|
  {
    seq(|vs|, i requires 0 <= i < |vs| => vs[i] == Bool(true))
  }

  function Dedup<T(==)>(xs: seq<T>): seq<T> {
    if xs == [] then []
    else
      var front := Dedup(xs[..|xs| - 1]);
      if xs[|xs| - 1] in front then front else front + [xs[|xs| - 1]]
  }

  function Product(fs: seq<Frame>, gs: seq<Frame>): seq<Frame> {
    if fs == [] then [] else seq(|gs|, i requires 0 <= i < |gs| => fs[0] + gs[i]) + Product(fs[1..], gs)
  }

  function Singles(fs: seq<Frame>): seq<seq<Frame>> { seq(|fs|, i requires 0 <= i < |fs| => [fs[i]]) }

  /** One group per distinct key, in order of first appearance. */
  function Partition(fs: seq<Frame>, ks: seq<seq<Value>>): seq<seq<Frame>>
    requires |fs| == |ks|
  {
    var ds := Dedup(ks);
    seq(|ds|, j requires 0 <= j < |ds| => Keep(fs, seq(|ks|, i requires 0 <= i < |ks| => ks[i] == ds[j])))
  }

  /** The fields the two sides of a NATURAL JOIN have in common agree. */
  predicate NaturalMatch(f: Frame, g: Frame) {
    forall b, c, i, j | b in f && c in g && 0 <= i < |b.tuple| && 0 <= j < |c.tuple| && b.tuple[i].name == c.tuple[j].name ::
      b.tuple[i].v == c.tuple[j].v
  }

  function Bind(alias: string, r: Rel): seq<Frame> {
    seq(|r|, i requires 0 <= i < |r| => [Binding(alias, r[i], false)])
  }

  /** The right side of a set operation takes the column names of the left. */
  function Relabel(names: Tuple, t: Tuple): Tuple {
    if |names| != |t| then t else seq(|t|, i requires 0 <= i < |t| => Field(names[i].name, t[i].v))
  }

  function RelabelAll(l: Rel, r: Rel): Rel {
    if l == [] then r else seq(|r|, i requires 0 <= i < |r| => Relabel(l[0], r[i]))
  }

  function Combine(kind: SetKind, l: Rel, r0: Rel): Rel {
    var r := RelabelAll(l, r0);
    match kind
    case UnionAll => l + r
    case Union => Dedup(l + r)
    case Intersect => Keep(l, seq(|l|, i requires 0 <= i < |l| => l[i] in r))
    case Except => Keep(l, seq(|l|, i requires 0 <= i < |l| => l[i] !in r))
  }

  function ScalarOf(r: Rel): Value {
    if |r| > 1 then Fault else if r == [] || r[0] == [] then Null else r[0][0].v
  }

  function NonNull(vs: seq<Value>): seq<Value> {
    if vs == [] then [] else (if IsNull(vs[0]) then [] else [vs[0]]) + NonNull(vs[1..])
  }

  function CountOf(distinct: bool, vs: seq<Value>): Value {
    Int(if distinct then |Dedup(NonNull(vs))| else |NonNull(vs)|)
  }

  /** The rows of a relation without their column names. */
  function Bare(r: Rel): seq<seq<Value>> {
    seq(|r|, i requires 0 <= i < |r| => seq(|r[i]|, j requires 0 <= j < |r[i]| => r[i][j].v))
  }

  /** An output row with its sort key. */
  datatype Ranked = Ranked(row: Tuple, key: seq<Value>)

  /** Whether key `a` sorts strictly before key `b`; `desc` says which positions run downward. */
  predicate Before(lib: Library, desc: seq<bool>, a: seq<Value>, b: seq<Value>) {
    a != [] && b != [] && desc != []
    && if lib.less(a[0], b[0]) then !desc[0]
       else if lib.less(b[0], a[0]) then desc[0]
       else Before(lib, desc[1..], a[1..], b[1..])
  }

  /** Put `x` after every row of a sorted list that it does not sort before. */
  function Place(lib: Library, desc: seq<bool>, x: Ranked, xs: seq<Ranked>): seq<Ranked> {
    if xs == [] || !Before(lib, desc, x.key, xs[|xs| - 1].key) then xs + [x]
    else Place(lib, desc, x, xs[..|xs| - 1]) + [xs[|xs| - 1]]
  }

  function Sort(lib: Library, desc: seq<bool>, xs: seq<Ranked>): seq<Ranked> {
    if xs == [] then [] else Place(lib, desc, xs[|xs| - 1], Sort(lib, desc, xs[..|xs| - 1]))
  }

  function Rows(xs: seq<Ranked>): Rel { seq(|xs|, i requires 0 <= i < |xs| => xs[i].row) }

  function Directions(order: seq<Node>): seq<bool> {
    seq(|order|, i requires 0 <= i < |order| => order[i].Ordered? && order[i].desc)
  }

  /** ORDER BY, then DISTINCT. */
  function Arrange(lib: Library, order: seq<Node>, distinct: bool, xs: seq<Ranked>): Rel {
    var rows := Rows(if order == [] then xs else Sort(lib, Directions(order), xs));
    if distinct then Dedup(rows) else rows
  }

  /** A sort expression may denote an output column, by position or by name. */
  function OutputKey(t: Tuple, e: Node): Option<Value> {
    if e.Lit? && e.v.Int? then Some(if 1 <= e.v.i <= |t| then t[e.v.i - 1].v else Fault)
    else if e.Col? && e.qual.None? && FieldMatches(t, e.name) != [] then Some(Unique(FieldMatches(t, e.name)))
    else None
  }

  /** The rows of a set operation with their sort keys, which can only be output columns. */
  function ByOutput(rows: Rel, os: seq<Node>): seq<Ranked> {
    seq(|rows|, i requires 0 <= i < |rows| => Ranked(rows[i], OutputKeys(rows[i], os)))
  }

  function OutputKeys(t: Tuple, os: seq<Node>): seq<Value> {
    seq(|os|, i requires 0 <= i < |os| =>
      if os[i].Ordered? && OutputKey(t, os[i].e).Some? then OutputKey(t, os[i].e).value else Fault)
  }

  /** The two sides of a set operation combined and sorted. */
  function Arranged(lib: Library, n: Node, l: Rel, r: Rel): Rel
    requires n.SetOp?
  {
    Arrange(lib, n.order, false, ByOutput(Combine(n.kind, l, r), n.order))
  }

  /** A LIMIT that evaluates to a number cuts the rows there; anything else leaves them. */
  function Cut(r: Rel, limit: Option<Value>): Rel {
    if limit.Some? && limit.value.Int? then Take(r, Max(0, limit.value.i)) else r
  }

  /** The name under which the FROM clause makes a table's rows visible. */
  function EffAlias(t: Node): string
    requires t.Table?
  {
    if t.alias != "" then t.alias else t.name
  }

  function OutName(p: Node): string {
    if p.As? then p.out else if p.Col? then p.name else "?column?"
  }

  predicate HasAgg(n: Node)
    decreases n
  {
    n.Count? || n.Agg? || ((n.As? || n.Ordered? || n.Test?) && HasAgg(n.e)) || (n.Call? && exists i | 0 <= i < |n.args| :: HasAgg(n.args[i]))
  }

  predicate Grouped(n: Node)
    requires n.Select?
  {
    && n.keys == []
    && (n.having.Some? || (exists i | 0 <= i < |n.projs| :: HasAgg(n.projs[i])) || exists i | 0 <= i < |n.order| :: HasAgg(n.order[i]))
  }

  function Lookup(db: Tables, t: TableId): Rel { if t in db then db[t] else [] }

  // ----- queries -----

  function EvalQ(lib: Library, db: Tables, env: Env, outer: Scope, n: Node): Rel
    decreases n, 3
  {
    if !IsQuery(n) then []
    else
      var env1 := EvalCtes(lib, db, env, outer, n.ctes);
      Cut(EvalBody(lib, db, env1, outer, n), EvalLimit(lib, db, env1, n.limit))
  }

  /** The rows of a query whose CTEs are bound in `env`, before its LIMIT. */
  function EvalBody(lib: Library, db: Tables, env: Env, outer: Scope, n: Node): Rel
    requires IsQuery(n)
    decreases n, 2, 1
  {
    if n.Select? then EvalRows(lib, db, env, outer, n) else EvalSides(lib, db, env, outer, n)
  }

  function EvalSides(lib: Library, db: Tables, env: Env, outer: Scope, n: Node): Rel
    requires n.SetOp?
    decreases n, 2, 0
  {
    Arranged(lib, n, EvalQ(lib, db, env, outer, n.left), EvalQ(lib, db, env, outer, n.right))
  }

  /** One row per group, sorted. */
  function EvalRows(lib: Library, db: Tables, env: Env, outer: Scope, n: Node): Rel
    requires n.Select?
    decreases n, 2, 0
  {
    var groups := EvalGroups(lib, db, env, outer, n);
    Arrange(lib, n.order, n.distinct, EvalTuples(lib, db, env, outer, groups, n))
  }

  /** One output row per group, with its sort key. */
  function EvalTuples(lib: Library, db: Tables, env: Env, outer: Scope, groups: seq<seq<Frame>>, n: Node): (xs: seq<Ranked>)
    requires n.Select?
    ensures |xs| == |groups|
    decreases n, 1
  {
    seq(|groups|, i requires 0 <= i < |groups| =>
      var t := EvalTuple(lib, db, env, outer, groups[i], n.projs);
      Ranked(t, EvalOrder(lib, db, env, outer, groups[i], t, n.order)))
  }

  function EvalOrder(lib: Library, db: Tables, env: Env, outer: Scope, group: seq<Frame>, t: Tuple, os: seq<Node>): seq<Value>
    decreases os, 0
  {
    if os == [] then []
    else [EvalKey(lib, db, env, outer, group, t, os[0])] + EvalOrder(lib, db, env, outer, group, t, os[1..])
  }

  function EvalKey(lib: Library, db: Tables, env: Env, outer: Scope, group: seq<Frame>, t: Tuple, o: Node): Value
    decreases o, 5
  {
    if !o.Ordered? then Fault
    else if OutputKey(t, o.e).Some? then OutputKey(t, o.e).value
    else EvalE(lib, db, env, outer, group, o.e)
  }

  function EvalGroups(lib: Library, db: Tables, env: Env, outer: Scope, n: Node): seq<seq<Frame>>
    requires n.Select?
    decreases n, 1, 1
  {
    var groups := EvalParts(lib, db, env, outer, n);
    if n.having.None? then groups else Keep(groups, EvalHaving(lib, db, env, outer, groups, n.having.value))
  }

  /** The groups before HAVING. */
  function EvalParts(lib: Library, db: Tables, env: Env, outer: Scope, n: Node): seq<seq<Frame>>
    requires n.Select?
    decreases n, 1, 0
  {
    var kept := EvalKept(lib, db, env, outer, n);
    if n.keys != [] then Partition(kept, EvalKeys(lib, db, env, outer, kept, n.keys))
    else if Grouped(n) then [kept] else Singles(kept)
  }

  /** For which groups the HAVING condition holds. */
  function EvalHaving(lib: Library, db: Tables, env: Env, outer: Scope, groups: seq<seq<Frame>>, n: Node): (bs: seq<bool>)
    ensures |bs| == |groups|
    decreases n, 6
  {
    Holds(EvalInGroups(lib, db, env, outer, groups, n))
  }

  /** One expression in each group. */
  function EvalInGroups(lib: Library, db: Tables, env: Env, outer: Scope, groups: seq<seq<Frame>>, n: Node): (vs: seq<Value>)
    ensures |vs| == |groups|
    decreases n, 5
  {
    seq(|groups|, i requires 0 <= i < |groups| => EvalE(lib, db, env, outer, groups[i], n))
  }

  /** The joined rows of the FROM clause for which the condition holds. */
  function EvalKept(lib: Library, db: Tables, env: Env, outer: Scope, n: Node): seq<Frame>
    requires n.Select?
    decreases n, 0
  {
    var frames := EvalFroms(lib, db, env, outer, n.sources);
    if n.cond.None? then frames else Keep(frames, EvalFlags(lib, db, env, outer, frames, n.cond.value))
  }

  /** An expression free of columns, stars and aggregates of its own query; a subquery may have its own. */
  predicate Constant(n: Node)
    decreases n
  {
    KidsSmaller(n);
    IsQuery(n) || (!n.Col? && !n.Star? && !n.Count? && !n.Agg? && forall i | 0 <= i < |Kids(n)| :: Constant(Kids(n)[i]))
  }

  /** A LIMIT is an expression that cannot mention its own query's columns. */
  function EvalLimit(lib: Library, db: Tables, env: Env, limit: Option<Node>): Option<Value>
    decreases limit, 4
  {
    if limit.None? then None
    else if Constant(limit.value) then Some(EvalE(lib, db, env, [], [], limit.value))
    else Some(Fault)
  }

  /** CTEs are bound in order, each seeing the earlier ones. */
  function EvalCtes(lib: Library, db: Tables, env: Env, outer: Scope, cs: seq<Node>): Env
    decreases cs, 0
  {
    if cs == [] then env
    else if cs[0].Cte? then
      EvalCtes(lib, db, env[cs[0].alias := EvalQ(lib, db, env, outer, cs[0].body)], outer, cs[1..])
    else EvalCtes(lib, db, env, outer, cs[1..])
  }

  function EvalFroms(lib: Library, db: Tables, env: Env, outer: Scope, ns: seq<Node>): seq<Frame>
    decreases ns, 0
  {
    if ns == [] then [[]]
    else Product(EvalF(lib, db, env, outer, ns[0]), EvalFroms(lib, db, env, outer, ns[1..]))
  }

  function EvalF(lib: Library, db: Tables, env: Env, outer: Scope, n: Node): seq<Frame>
    decreases n, 4
  {
    match n
    case Table(schema, name, _) =>
      Bind(EffAlias(n), if schema == "" && name in env then env[name] else Lookup(db, (schema, name)))
    case Derived(query, alias) => Bind(alias, EvalQ(lib, db, env, outer, query))
    case Join(_, side, left, right, _) =>
      var l := EvalF(lib, db, env, outer, left);
      var r := EvalF(lib, db, env, outer, right);
      var a := EvalLeftRows(lib, db, env, outer, n, l, r);
      if KeepsRight(side) then a + EvalRightRows(lib, db, env, outer, n, l, r) else a
    case _ => []
  }

  predicate KeepsLeft(side: JoinSide) { side.LeftOuter? || side.FullOuter? }

  predicate KeepsRight(side: JoinSide) { side.RightOuter? || side.FullOuter? }

  function Probe(f: Frame, r: seq<Frame>): seq<Frame> { seq(|r|, j requires 0 <= j < |r| => f + r[j]) }

  function NullTuple(t: Tuple): Tuple { seq(|t|, i requires 0 <= i < |t| => Field(t[i].name, Null)) }

  /** What an outer join pairs with an unmatched row: NULL for every column of the other side. */
  function Nulls(fs: seq<Frame>): Frame {
    if fs == [] then [] else seq(|fs[0]|, i requires 0 <= i < |fs[0]| => Binding(fs[0][i].alias, NullTuple(fs[0][i].tuple), true))
  }

  /** Which rows of `r` the join condition pairs with `f`. */
  function EvalMatches(lib: Library, db: Tables, env: Env, outer: Scope, n: Node, f: Frame, r: seq<Frame>): (bs: seq<bool>)
    requires n.Join?
    ensures |bs| == |r|
    decreases n, 0
  {
    if n.natural then seq(|r|, j requires 0 <= j < |r| => NaturalMatch(f, r[j]))
    else if n.on.None? then seq(|r|, j requires 0 <= j < |r| => true)
    else EvalFlags(lib, db, env, outer, Probe(f, r), n.on.value)
  }

  /** The matching pairs, left row by left row, and the unmatched left rows if the join keeps them. */
  function EvalLeftRows(lib: Library, db: Tables, env: Env, outer: Scope, n: Node, l: seq<Frame>, r: seq<Frame>): seq<Frame>
    requires n.Join?
    decreases n, 1, |l|
  {
    if l == [] then []
    else Padded(n.side, l[0], r, Keep(Probe(l[0], r), EvalMatches(lib, db, env, outer, n, l[0], r)))
         + EvalLeftRows(lib, db, env, outer, n, l[1..], r)
  }

  function Padded(side: JoinSide, f: Frame, r: seq<Frame>, pairs: seq<Frame>): seq<Frame> {
    if pairs == [] && KeepsLeft(side) then [f + Nulls(r)] else pairs
  }

  /** The right rows that match no left row. */
  function EvalRightRows(lib: Library, db: Tables, env: Env, outer: Scope, n: Node, l: seq<Frame>, r: seq<Frame>): seq<Frame>
    requires n.Join?
    decreases n, 2, |r|
  {
    if r == [] then []
    else (if EvalMatched(lib, db, env, outer, n, l, r[0]) then [] else [Nulls(l) + r[0]])
         + EvalRightRows(lib, db, env, outer, n, l, r[1..])
  }

  predicate EvalMatched(lib: Library, db: Tables, env: Env, outer: Scope, n: Node, l: seq<Frame>, g: Frame)
    requires n.Join?
    decreases n, 1, |l|
  {
    l != [] && (EvalMatches(lib, db, env, outer, n, l[0], [g])[0] || EvalMatched(lib, db, env, outer, n, l[1..], g))
  }

  // ----- expressions -----

  function Current(group: seq<Frame>): Frame { if group == [] then [] else group[0] }

  function EvalE(lib: Library, db: Tables, env: Env, outer: Scope, group: seq<Frame>, n: Node): Value
    decreases n, 4
  {
    match n
    case Lit(v) => v
    case Col(qual, name) => Resolve([Current(group)] + outer, qual, name)
    case Star(of) => ResolveStar([Current(group)] + outer, of)
    case Count(distinct, arg) => CountOf(distinct, EvalEach(lib, db, env, outer, group, arg))
    case Agg(fn, arg) => lib.agg(fn, EvalEach(lib, db, env, outer, group, arg))
    case Call(fn, _, args) => lib.scalar(fn, EvalList(lib, db, env, outer, group, args))
    case As(e, _) => EvalE(lib, db, env, outer, group, e)
    case Test(op, e, query) =>
      lib.test(op, EvalE(lib, db, env, outer, group, e), Bare(EvalQ(lib, db, env, [Current(group)] + outer, query)))
    case Select(_, _, _, _, _, _, _, _, _, _, _) => ScalarOf(EvalQ(lib, db, env, [Current(group)] + outer, n))
    case SetOp(_, _, _, _, _, _, _) => ScalarOf(EvalQ(lib, db, env, [Current(group)] + outer, n))
    case _ => Fault
  }

  /** One expression in each frame of a group. */
  function EvalEach(lib: Library, db: Tables, env: Env, outer: Scope, frames: seq<Frame>, n: Node): (vs: seq<Value>)
    ensures |vs| == |frames|
    decreases n, 5
  {
    seq(|frames|, i requires 0 <= i < |frames| => EvalE(lib, db, env, outer, [frames[i]], n))
  }

  function EvalFlags(lib: Library, db: Tables, env: Env, outer: Scope, frames: seq<Frame>, n: Node): (bs: seq<bool>)
    ensures |bs| == |frames|
    decreases n, 6
  {
    Holds(EvalEach(lib, db, env, outer, frames, n))
  }

  /** Several expressions in one group. */
  function EvalList(lib: Library, db: Tables, env: Env, outer: Scope, group: seq<Frame>, ns: seq<Node>): (vs: seq<Value>)
    ensures |vs| == |ns|
    decreases ns, 0
  {
    if ns == [] then []
    else [EvalE(lib, db, env, outer, group, ns[0])] + EvalList(lib, db, env, outer, group, ns[1..])
  }

  function EvalKeys(lib: Library, db: Tables, env: Env, outer: Scope, frames: seq<Frame>, ns: seq<Node>): (ks: seq<seq<Value>>)
    ensures |ks| == |frames|
    decreases ns, 1
  {
    seq(|frames|, i requires 0 <= i < |frames| => EvalList(lib, db, env, outer, [frames[i]], ns))
  }

  /** One output row: a star expands to every field it covers. */
  function EvalTuple(lib: Library, db: Tables, env: Env, outer: Scope, group: seq<Frame>, ps: seq<Node>): Tuple
    decreases ps, 0
  {
    if ps == [] then []
    else
      Head(ps[0], EvalE(lib, db, env, outer, group, ps[0])) + EvalTuple(lib, db, env, outer, group, ps[1..])
  }

  /** The fields projection `p` contributes when its value is `v`. */
  function Head(p: Node, v: Value): Tuple { if p.Star? && (v.Row? || v.NullRow?) then v.fields else [Field(OutName(p), v)] }
}
