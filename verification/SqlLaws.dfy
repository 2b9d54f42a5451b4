/** What the pieces of the evaluator mean: DISTINCT, sorting, set operations, grouping, COUNT and outer
    joins, each told without the function that computes it. */
module SqlLaws {
  import opened Prelude
  import opened SqlTree
  import opened SqlEval

  /** DISTINCT keeps each element once. */
  lemma {:induction false} DedupExactly<T>(xs: seq<T>)
    ensures forall x :: x in Dedup(xs) <==> x in xs
    ensures forall i, j | 0 <= i < j < |Dedup(xs)| :: Dedup(xs)[i] != Dedup(xs)[j]
  {
    if xs != [] {
      var front, last := xs[..|xs| - 1], xs[|xs| - 1];
      DedupExactly(front);
      assert xs == front + [last];
    }
  }

  /** Exactly the elements under a true flag are kept. */
  lemma {:induction false} KeepExactly<T>(xs: seq<T>, flags: seq<bool>)
    requires |xs| == |flags|
    ensures forall x :: x in Keep(xs, flags) <==> exists i :: 0 <= i < |xs| && flags[i] && xs[i] == x
  {
    if xs != [] {
      KeepExactly(xs[1..], flags[1..]);
      assert forall i | 1 <= i < |xs| :: xs[i] == xs[1..][i - 1] && flags[i] == flags[1..][i - 1];
      forall x ensures x in Keep(xs, flags) <==> exists i :: 0 <= i < |xs| && flags[i] && xs[i] == x {
        if i :| 0 <= i < |xs| && flags[i] && xs[i] == x {
          if i > 0 { assert flags[1..][i - 1] && xs[1..][i - 1] == x; }
        }
        if x in Keep(xs[1..], flags[1..]) {
          var i :| 0 <= i < |xs| - 1 && flags[1..][i] && xs[1..][i] == x;
          assert flags[i + 1] && xs[i + 1] == x;
        }
      }
    }
  }

  // ----- sorting -----

  ghost predicate Asymmetric(lib: Library) { forall a, b :: lib.less(a, b) ==> !lib.less(b, a) }

  lemma {:induction false} BeforeOneWay(lib: Library, desc: seq<bool>, a: seq<Value>, b: seq<Value>)
    requires Asymmetric(lib) && Before(lib, desc, a, b)
    ensures !Before(lib, desc, b, a)
    decreases |a|
  {
    if !lib.less(a[0], b[0]) && !lib.less(b[0], a[0]) { BeforeOneWay(lib, desc[1..], a[1..], b[1..]); }
  }

  ghost predicate Sorted(lib: Library, desc: seq<bool>, xs: seq<Ranked>) {
    forall i | 0 < i < |xs| :: !Before(lib, desc, xs[i].key, xs[i - 1].key)
  }

  lemma {:induction false} PlaceAdds(lib: Library, desc: seq<bool>, x: Ranked, xs: seq<Ranked>)
    ensures multiset(Place(lib, desc, x, xs)) == multiset(xs) + multiset{x}
  {
    if xs != [] && Before(lib, desc, x.key, xs[|xs| - 1].key) {
      PlaceAdds(lib, desc, x, xs[..|xs| - 1]);
      assert xs == xs[..|xs| - 1] + [xs[|xs| - 1]];
    }
  }

  lemma SortedSnoc(lib: Library, desc: seq<bool>, xs: seq<Ranked>, x: Ranked)
    ensures Sorted(lib, desc, xs + [x]) <==> Sorted(lib, desc, xs) && (xs == [] || !Before(lib, desc, x.key, xs[|xs| - 1].key))
  {
    hide Before;
    var ys := xs + [x];
    assert forall i | 0 <= i < |xs| :: ys[i] == xs[i];
    if Sorted(lib, desc, ys) {
      forall i | 0 < i < |xs| ensures !Before(lib, desc, xs[i].key, xs[i - 1].key) { assert !Before(lib, desc, ys[i].key, ys[i - 1].key); }
      if xs != [] { assert !Before(lib, desc, ys[|xs|].key, ys[|xs| - 1].key); }
    }
  }

  lemma {:induction false} PlaceKeeps(lib: Library, desc: seq<bool>, x: Ranked, xs: seq<Ranked>)
    requires Asymmetric(lib) && Sorted(lib, desc, xs)
    ensures var ys := Place(lib, desc, x, xs);
            Sorted(lib, desc, ys) && |ys| > 0 && (ys[|ys| - 1] == x || (xs != [] && ys[|ys| - 1] == xs[|xs| - 1]))
  {
    if xs != [] && Before(lib, desc, x.key, xs[|xs| - 1].key) {
      var front, last := xs[..|xs| - 1], xs[|xs| - 1];
      assert xs == front + [last];
      SortedSnoc(lib, desc, front, last);
      PlaceKeeps(lib, desc, x, front);
      BeforeOneWay(lib, desc, x.key, last.key);
      var zs := Place(lib, desc, x, front);
      assert Place(lib, desc, x, xs) == zs + [last];
      hide Before, Place, Sorted, Asymmetric;
      SortedSnoc(lib, desc, zs, last);
    } else {
      SortedSnoc(lib, desc, xs, x);
    }
  }

  /** ORDER BY leaves no row before one it sorts after. */
  lemma {:induction false} SortSorts(lib: Library, desc: seq<bool>, xs: seq<Ranked>)
    requires Asymmetric(lib)
    ensures Sorted(lib, desc, Sort(lib, desc, xs))
  {
    if xs != [] {
      SortSorts(lib, desc, xs[..|xs| - 1]);
      PlaceKeeps(lib, desc, xs[|xs| - 1], Sort(lib, desc, xs[..|xs| - 1]));
    }
  }

  /** It permutes the rows. */
  lemma {:induction false} SortPermutes(lib: Library, desc: seq<bool>, xs: seq<Ranked>)
    ensures multiset(Sort(lib, desc, xs)) == multiset(xs)
  {
    if xs != [] {
      var front, last := xs[..|xs| - 1], xs[|xs| - 1];
      SortPermutes(lib, desc, front);
      PlaceAdds(lib, desc, last, Sort(lib, desc, front));
      SplitLast(xs);
      hide Place;
    }
  }

  lemma SplitLast<T>(xs: seq<T>)
    requires xs != []
    ensures multiset(xs) == multiset(xs[..|xs| - 1]) + multiset{xs[|xs| - 1]}
  {
    assert xs == xs[..|xs| - 1] + [xs[|xs| - 1]];
  }

  // ----- set operations and groups -----

  /** The rows of a set operation, the right side under the column names of the left. */
  lemma CombineExactly(kind: SetKind, l: Rel, r0: Rel)
    ensures var r, c := RelabelAll(l, r0), Combine(kind, l, r0);
            && (kind.UnionAll? ==> multiset(c) == multiset(l) + multiset(r))
            && (kind.Union? ==> (forall t :: t in c <==> t in l || t in r) && forall i, j | 0 <= i < j < |c| :: c[i] != c[j])
            && (kind.Intersect? ==> forall t :: t in c <==> t in l && t in r)
            && (kind.Except? ==> forall t :: t in c <==> t in l && t !in r)
  {
    var r := RelabelAll(l, r0);
    DedupExactly(l + r);
    KeepExactly(l, seq(|l|, i requires 0 <= i < |l| => l[i] in r));
    KeepExactly(l, seq(|l|, i requires 0 <= i < |l| => l[i] !in r));
    hide Dedup, Keep, RelabelAll;
  }

  /** Relabelling changes names only, and only where the widths agree. */
  lemma RelabelExactly(l: Rel, r: Rel, i: nat, j: nat)
    requires i < |r| && j < |r[i]|
    ensures |RelabelAll(l, r)| == |r| && |RelabelAll(l, r)[i]| == |r[i]| && RelabelAll(l, r)[i][j].v == r[i][j].v
    ensures l != [] && |l[0]| == |r[i]| ==> RelabelAll(l, r)[i][j].name == l[0][j].name
  {
  }

  /** GROUP BY: two rows share a group exactly if they have the same key, and every row is in one. */
  lemma PartitionExactly(fs: seq<Frame>, ks: seq<seq<Value>>)
    requires |fs| == |ks|
    ensures var ds, gs := Dedup(ks), Partition(fs, ks);
            && |gs| == |ds| && (forall i, j | 0 <= i < j < |ds| :: ds[i] != ds[j]) && (forall k :: k in ds <==> k in ks)
            && forall j | 0 <= j < |gs| :: forall f :: f in gs[j] <==> exists i :: 0 <= i < |fs| && ks[i] == ds[j] && fs[i] == f
  {
    var ds, gs := Dedup(ks), Partition(fs, ks);
    DedupExactly(ks);
    hide Dedup;
    forall j | 0 <= j < |gs| ensures forall f :: f in gs[j] <==> exists i :: 0 <= i < |fs| && ks[i] == ds[j] && fs[i] == f {
      var flags := seq(|ks|, i requires 0 <= i < |ks| => ks[i] == ds[j]);
      KeepExactly(fs, flags);
      hide Keep;
    }
  }

  lemma {:induction false} NonNullExactly(vs: seq<Value>)
    ensures forall v :: v in NonNull(vs) <==> v in vs && !IsNull(v)
  {
    if vs != [] {
      NonNullExactly(vs[1..]);
      assert vs == [vs[0]] + vs[1..];
    }
  }

  /** COUNT(DISTINCT ..) is the number of different values that are not NULL. */
  lemma CountDistinctExactly(vs: seq<Value>)
    ensures CountOf(true, vs) == Int(|set v | v in vs && !IsNull(v)|)
  {
    var ds := Dedup(NonNull(vs));
    DedupExactly(NonNull(vs));
    NonNullExactly(vs);
    DistinctSize(ds);
    hide NonNull, Dedup;
    assert (set v | v in ds) == set v | v in vs && !IsNull(v);
  }

  lemma {:induction false} DistinctSize<T>(xs: seq<T>)
    requires forall i, j | 0 <= i < j < |xs| :: xs[i] != xs[j]
    ensures |set x | x in xs| == |xs|
  {
    if xs != [] {
      var front, last := xs[..|xs| - 1], xs[|xs| - 1];
      DistinctSize(front);
      assert xs == front + [last];
      assert (set x | x in xs) == (set x | x in front) + {last};
    }
  }

  // ----- joins -----

  /** A left or full outer join shows every row of its left side. */
  lemma {:induction false} LeftRowsKept(lib: Library, db: Tables, env: Env, outer: Scope, n: Node, l: seq<Frame>, r: seq<Frame>, f: Frame)
    requires n.Join? && (n.side == LeftOuter || n.side == FullOuter) && f in l
    ensures exists g :: g in EvalLeftRows(lib, db, env, outer, n, l, r) && f <= g
    decreases |l|
  {
    var pairs := Keep(Probe(l[0], r), EvalMatches(lib, db, env, outer, n, l[0], r));
    var here, rest := Padded(n.side, l[0], r, pairs), EvalLeftRows(lib, db, env, outer, n, l[1..], r);
    assert EvalLeftRows(lib, db, env, outer, n, l, r) == here + rest;
    if f == l[0] {
      KeepExactly(Probe(l[0], r), EvalMatches(lib, db, env, outer, n, l[0], r));
      hide EvalMatches, EvalLeftRows, Keep;
      assert here[0] in here + rest && f <= here[0];
    } else {
      LeftRowsKept(lib, db, env, outer, n, l[1..], r, f);
      hide EvalMatches, EvalLeftRows, Keep;
      var g :| g in rest && f <= g;
      assert g in here + rest;
    }
  }

  /** Every other row of a join pairs a left and a right row. */
  lemma {:induction false} LeftRowsPair(lib: Library, db: Tables, env: Env, outer: Scope, n: Node, l: seq<Frame>, r: seq<Frame>, g: Frame)
    requires n.Join? && g in EvalLeftRows(lib, db, env, outer, n, l, r)
    ensures exists f :: f in l && ((exists h :: h in r && g == f + h) || ((n.side == LeftOuter || n.side == FullOuter) && g == f + Nulls(r)))
    decreases |l|
  {
    var pairs := Keep(Probe(l[0], r), EvalMatches(lib, db, env, outer, n, l[0], r));
    var here, rest := Padded(n.side, l[0], r, pairs), EvalLeftRows(lib, db, env, outer, n, l[1..], r);
    assert EvalLeftRows(lib, db, env, outer, n, l, r) == here + rest;
    if g in here {
      KeepExactly(Probe(l[0], r), EvalMatches(lib, db, env, outer, n, l[0], r));
      hide EvalMatches, EvalLeftRows, Keep;
      if g in pairs {
        var i :| 0 <= i < |r| && Probe(l[0], r)[i] == g;
        assert r[i] in r && g == l[0] + r[i];
      }
      assert l[0] in l;
    } else {
      LeftRowsPair(lib, db, env, outer, n, l[1..], r, g);
      hide EvalMatches, EvalLeftRows, Keep;
      var f :| f in l[1..] && ((exists h :: h in r && g == f + h) || ((n.side == LeftOuter || n.side == FullOuter) && g == f + Nulls(r)));
      assert f in l;
    }
  }
}
