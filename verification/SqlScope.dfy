/** Which table references are free: the validator's upward walk against PostgreSQL's scoping.

    The validator walks from a table to the root and treats the name as a CTE as soon as any ancestor
    query declares one of that name. PostgreSQL's non-recursive `WITH` is sequential: a CTE body sees
    only earlier siblings, and a schema-qualified name never denotes a CTE. */
module SqlScope {
  import opened Prelude
  import opened SqlTree

  function AliasOf(c: Node): set<string> { if c.Cte? then {c.alias} else {} }

  function Aliases(cs: seq<Node>): set<string> {
    if cs == [] then {} else AliasOf(cs[0]) + Aliases(cs[1..])
  }

  /** All CTE names declared by the queries among a node's ancestors. */
  ghost function Bound(anc: seq<Node>): set<string> {
    if anc == [] then {} else Aliases(Ctes(anc[0])) + Bound(anc[1..])
  }

  /** The references among visited nodes that the upward walk does not resolve to a CTE. */
  ghost function WalkFree(vs: seq<Visited>): seq<TableId> {
    if vs == [] then [] else FreeAt(vs[0]) + WalkFree(vs[1..])
  }

  ghost function FreeAt(v: Visited): seq<TableId> {
    if v.node.Table? && v.node.name !in Bound(v.anc) then [(v.node.schema, v.node.name)] else []
  }

  /** The same references found top-down, threading the declared names. */
  ghost function CodeFree(n: Node, b: set<string>): seq<TableId>
    decreases n
  {
    KidsSmaller(n);
    if n.Table? then (if n.name in b then [] else [(n.schema, n.name)])
    else CodeFreeAll(n, Kids(n), b + Aliases(Ctes(n)))
  }

  ghost function CodeFreeAll(ctx: Node, ns: seq<Node>, b: set<string>): seq<TableId>
    requires Under(ns, ctx)
    decreases ctx, |ns|
  {
    if ns == [] then [] else CodeFree(ns[0], b) + CodeFreeAll(ctx, ns[1..], b)
  }

  /** The references PostgreSQL resolves to stored tables. */
  ghost function PgFree(n: Node, b: set<string>): seq<TableId>
    decreases n
  {
    KidsSmaller(n);
    if n.Table? then (if n.schema == "" && n.name in b then [] else [(n.schema, n.name)])
    else PgFreeCtes(n, Ctes(n), b) + PgFreeAll(n, Rest(n), b + Aliases(Ctes(n)))
  }

  ghost function PgFreeCtes(ctx: Node, cs: seq<Node>, b: set<string>): seq<TableId>
    requires Under(cs, ctx)
    decreases ctx, |cs|
  {
    if cs == [] then [] else PgFree(cs[0], b) + PgFreeCtes(ctx, cs[1..], b + AliasOf(cs[0]))
  }

  ghost function PgFreeAll(ctx: Node, ns: seq<Node>, b: set<string>): seq<TableId>
    requires Under(ns, ctx)
    decreases ctx, |ns|
  {
    if ns == [] then [] else PgFree(ns[0], b) + PgFreeAll(ctx, ns[1..], b)
  }

  /** None of the references bears one of the names `e`. */
  ghost predicate Clear(ts: seq<TableId>, e: set<string>) { forall t | t in ts :: t.1 !in e }

  /** No qualified reference bears the name of a CTE in scope, and no CTE body mentions, as a stored
      table, its own name or that of a later sibling. */
  ghost predicate Sequential(n: Node, b: set<string>)
    decreases n
  {
    KidsSmaller(n);
    if n.Table? then n.schema == "" || n.name !in b
    else SequentialCtes(n, Ctes(n), b) && SequentialAll(n, Rest(n), b + Aliases(Ctes(n)))
  }

  ghost predicate SequentialCtes(ctx: Node, cs: seq<Node>, b: set<string>)
    requires Under(cs, ctx)
    decreases ctx, |cs|
  {
    cs != [] ==>
      && Sequential(cs[0], b)
      && Clear(PgFree(cs[0], b), Aliases(cs))
      && SequentialCtes(ctx, cs[1..], b + AliasOf(cs[0]))
  }

  ghost predicate SequentialAll(ctx: Node, ns: seq<Node>, b: set<string>)
    requires Under(ns, ctx)
    decreases ctx, |ns|
  {
    ns != [] ==> Sequential(ns[0], b) && SequentialAll(ctx, ns[1..], b)
  }

  // ----- the upward walk is the top-down pass -----

  lemma WalkFreeCons(v: Visited, vs: seq<Visited>)
    ensures WalkFree([v] + vs) == FreeAt(v) + WalkFree(vs)
  {
    assert ([v] + vs)[1..] == vs;
  }

  lemma {:induction false} WalkFreeAppend(a: seq<Visited>, c: seq<Visited>)
    ensures WalkFree(a + c) == WalkFree(a) + WalkFree(c)
  {
    hide FreeAt, Bound;
    if a == [] {
      assert a + c == c;
    } else {
      WalkFreeAppend(a[1..], c);
      WalkFreeCons(a[0], a[1..]);
      WalkFreeCons(a[0], a[1..] + c);
      assert a == [a[0]] + a[1..];
      Regroup([a[0]], a[1..], c);
      hide WalkFree;
      Regroup(FreeAt(a[0]), WalkFree(a[1..]), WalkFree(c));
    }
  }

  lemma WalkFreeOne(v: Visited)
    ensures WalkFree([v]) == FreeAt(v)
  {
    assert [v][1..] == [];
  }

  lemma BoundCons(n: Node, anc: seq<Node>)
    ensures Bound([n] + anc) == Bound(anc) + Aliases(Ctes(n))
  {
    assert ([n] + anc)[1..] == anc;
  }

  /** On every tree, walking up from each table finds the references a top-down pass finds. */
  lemma {:induction false} WalkIsTopDown(n: Node, anc: seq<Node>)
    ensures WalkFree(Visit(n, anc)) == CodeFree(n, Bound(anc))
    decreases n
  {
    KidsSmaller(n);
    var below := VisitAll(n, Kids(n), [n] + anc);
    WalkFreeAppend([Visited(n, anc)], below);
    WalkFreeOne(Visited(n, anc));
    if n.Table? {
      assert below == [];
    } else {
      BoundCons(n, anc);
      WalkAllIsTopDown(n, Kids(n), [n] + anc);
    }
  }

  lemma {:induction false} WalkAllIsTopDown(ctx: Node, ns: seq<Node>, anc: seq<Node>)
    requires Under(ns, ctx)
    ensures WalkFree(VisitAll(ctx, ns, anc)) == CodeFreeAll(ctx, ns, Bound(anc))
    decreases ctx, |ns|
  {
    if ns != [] {
      WalkIsTopDown(ns[0], anc);
      WalkAllIsTopDown(ctx, ns[1..], anc);
      WalkFreeAppend(Visit(ns[0], anc), VisitAll(ctx, ns[1..], anc));
    }
  }

  // ----- the validator's scoping against PostgreSQL's -----

  lemma {:induction false} CodeFreeAllAppend(ctx: Node, xs: seq<Node>, ys: seq<Node>, b: set<string>)
    requires Under(xs, ctx) && Under(ys, ctx)
    ensures Under(xs + ys, ctx)
    ensures CodeFreeAll(ctx, xs + ys, b) == CodeFreeAll(ctx, xs, b) + CodeFreeAll(ctx, ys, b)
  {
    if xs == [] {
      assert xs + ys == ys;
    } else {
      CodeFreeAllAppend(ctx, xs[1..], ys, b);
      assert (xs + ys)[1..] == xs[1..] + ys;
    }
  }

  /** What holds between the two free lists when the validator also sees the names `e`. */
  ghost predicate Compared(code: seq<TableId>, pg: seq<TableId>, sequential: bool, e: set<string>) {
    && |code| <= |pg|
    && (|code| == |pg| ==> sequential && Clear(pg, e))
    && (sequential && Clear(pg, e) ==> code == pg)
  }

  lemma ComparedAppend(c0: seq<TableId>, p0: seq<TableId>, s0: bool, c1: seq<TableId>, p1: seq<TableId>, s1: bool,
                       e: set<string>)
    requires Compared(c0, p0, s0, e) && Compared(c1, p1, s1, e)
    ensures Compared(c0 + c1, p0 + p1, s0 && s1, e)
  {
    assert Clear(p0 + p1, e) <==> Clear(p0, e) && Clear(p1, e) by {
      assert forall t :: t in p0 + p1 <==> t in p0 || t in p1;
    }
  }

  lemma BelowTop(n: Node, b: set<string>, e: set<string>)
    requires !n.Table?
    ensures Under(Ctes(n), n) && Under(Rest(n), n)
    ensures var al := Aliases(Ctes(n));
            && CodeFree(n, b + e) == CodeFreeAll(n, Ctes(n), b + e + al) + CodeFreeAll(n, Rest(n), b + al + e)
            && PgFree(n, b) == PgFreeCtes(n, Ctes(n), b) + PgFreeAll(n, Rest(n), b + al)
            && Sequential(n, b) == (SequentialCtes(n, Ctes(n), b) && SequentialAll(n, Rest(n), b + al))
  {
    KidsSmaller(n);
    var al := Aliases(Ctes(n));
    assert b + al + e == b + e + al;
    CodeFreeAllAppend(n, Ctes(n), Rest(n), b + e + al);
  }

  lemma {:induction false} Compare(n: Node, b: set<string>, e: set<string>)
    ensures Compared(CodeFree(n, b + e), PgFree(n, b), Sequential(n, b), e)
    decreases n
  {
    if !n.Table? {
      BelowTop(n, b, e);
      hide CodeFree, CodeFreeAll, PgFree, PgFreeCtes, PgFreeAll, Sequential, SequentialCtes, SequentialAll, Compared;
      var al := Aliases(Ctes(n));
      CompareCtes(n, Ctes(n), b, e);
      CompareAll(n, Rest(n), b + al, e);
      ComparedAppend(
        CodeFreeAll(n, Ctes(n), b + e + al), PgFreeCtes(n, Ctes(n), b), SequentialCtes(n, Ctes(n), b),
        CodeFreeAll(n, Rest(n), b + al + e), PgFreeAll(n, Rest(n), b + al), SequentialAll(n, Rest(n), b + al), e);
    }
  }

  lemma {:induction false} CompareAll(ctx: Node, ns: seq<Node>, b: set<string>, e: set<string>)
    requires Under(ns, ctx)
    ensures Compared(CodeFreeAll(ctx, ns, b + e), PgFreeAll(ctx, ns, b), SequentialAll(ctx, ns, b), e)
    decreases ctx, |ns|
  {
    if ns != [] {
      Compare(ns[0], b, e);
      CompareAll(ctx, ns[1..], b, e);
      ComparedAppend(
        CodeFree(ns[0], b + e), PgFree(ns[0], b), Sequential(ns[0], b),
        CodeFreeAll(ctx, ns[1..], b + e), PgFreeAll(ctx, ns[1..], b), SequentialAll(ctx, ns[1..], b), e);
    }
  }

  lemma {:induction false} CompareCtes(ctx: Node, cs: seq<Node>, b: set<string>, e: set<string>)
    requires Under(cs, ctx)
    ensures Compared(CodeFreeAll(ctx, cs, b + e + Aliases(cs)), PgFreeCtes(ctx, cs, b), SequentialCtes(ctx, cs, b), e)
    decreases ctx, |cs|
  {
    if cs != [] {
      var all := b + e + Aliases(cs);
      var b1 := b + AliasOf(cs[0]);
      Compare(cs[0], b, e + Aliases(cs));
      assert b + (e + Aliases(cs)) == all;
      CompareCtes(ctx, cs[1..], b1, e);
      assert b1 + e + Aliases(cs[1..]) == all;
      var s0 := Sequential(cs[0], b) && Clear(PgFree(cs[0], b), Aliases(cs));
      assert Compared(CodeFree(cs[0], all), PgFree(cs[0], b), s0, e);
      ComparedAppend(
        CodeFree(cs[0], all), PgFree(cs[0], b), s0,
        CodeFreeAll(ctx, cs[1..], all), PgFreeCtes(ctx, cs[1..], b1), SequentialCtes(ctx, cs[1..], b1), e);
    }
  }

  /** The validator's free references are PostgreSQL's exactly on `Sequential` queries; on any other
      query it overlooks at least one stored table. */
  lemma ScopesAgree(n: Node)
    ensures CodeFree(n, {}) == PgFree(n, {}) <==> Sequential(n, {})
    ensures |CodeFree(n, {})| <= |PgFree(n, {})|
    ensures !Sequential(n, {}) ==> |CodeFree(n, {})| < |PgFree(n, {})|
  {
    var none: set<string> := {};
    Compare(n, none, none);
    assert none + none == none;
  }
}
