/** A harmless statement only computes: execution is the pure evaluator and leaves the world alone.
    One lemma per evaluation function, by induction on the tree. */
module SqlReadOnly {
  import opened Prelude
  import opened SqlTree
  import opened SqlEval
  import opened SqlRun

  // ----- evaluation of a list, head first -----

  lemma InGroupsCons(lib: Library, db: Tables, env: Env, outer: Scope, groups: seq<seq<Frame>>, n: Node)
    requires groups != []
    ensures EvalInGroups(lib, db, env, outer, groups, n)
         == [EvalE(lib, db, env, outer, groups[0], n)] + EvalInGroups(lib, db, env, outer, groups[1..], n)
  {
    hide EvalE;
  }

  lemma EachCons(lib: Library, db: Tables, env: Env, outer: Scope, frames: seq<Frame>, n: Node)
    requires frames != []
    ensures EvalEach(lib, db, env, outer, frames, n)
         == [EvalE(lib, db, env, outer, [frames[0]], n)] + EvalEach(lib, db, env, outer, frames[1..], n)
  {
    hide EvalE;
  }

  lemma TuplesCons(lib: Library, db: Tables, env: Env, outer: Scope, groups: seq<seq<Frame>>, n: Node)
    requires n.Select? && groups != []
    ensures var t := EvalTuple(lib, db, env, outer, groups[0], n.projs);
            EvalTuples(lib, db, env, outer, groups, n) ==
            [Ranked(t, EvalOrder(lib, db, env, outer, groups[0], t, n.order))] + EvalTuples(lib, db, env, outer, groups[1..], n)
  {
    hide EvalTuple, EvalOrder;
  }

  // ----- harmless parts -----

  lemma KidHarmless(d: DenyLists, n: Node, k: Node)
    requires AllHarmless(d, n) && k in Kids(n)
    ensures AllHarmless(d, k) && k < n
  {
    KidNodes(n, k);
  }

  lemma SelfHarmless(d: DenyLists, n: Node)
    requires AllHarmless(d, n)
    ensures Harmless(d, n)
  {
    assert n in Nodes(n);
  }

  lemma KidsHarmless(d: DenyLists, n: Node, ns: seq<Node>)
    requires AllHarmless(d, n)
    requires forall i | 0 <= i < |ns| :: ns[i] in Kids(n)
    ensures ListHarmless(d, ns)
  {
    forall i | 0 <= i < |ns| ensures AllHarmless(d, ns[i]) {
      KidHarmless(d, n, ns[i]);
    }
  }

  lemma SelectKids(d: DenyLists, n: Node)
    requires n.Select? && AllHarmless(d, n)
    ensures ListHarmless(d, n.ctes) && ListHarmless(d, n.projs) && ListHarmless(d, n.sources)
    ensures ListHarmless(d, n.keys) && ListHarmless(d, n.order)
    ensures n.cond.Some? ==> AllHarmless(d, n.cond.value)
    ensures n.having.Some? ==> AllHarmless(d, n.having.value)
    ensures n.limit.Some? ==> AllHarmless(d, n.limit.value)
    ensures !n.recursive && n.into.None?
  {
    SelfHarmless(d, n);
    KidsHarmless(d, n, n.ctes);
    KidsHarmless(d, n, n.projs);
    KidsHarmless(d, n, n.sources);
    KidsHarmless(d, n, n.keys);
    KidsHarmless(d, n, n.order);
    if n.having.Some? {
      assert n.having.value in OptSeq(n.having);
      KidHarmless(d, n, n.having.value);
    }
    if n.cond.Some? {
      assert n.cond.value in OptSeq(n.cond);
      KidHarmless(d, n, n.cond.value);
    }
    if n.limit.Some? {
      assert n.limit.value in OptSeq(n.limit);
      KidHarmless(d, n, n.limit.value);
    }
  }

  lemma SetOpKids(d: DenyLists, n: Node)
    requires n.SetOp? && AllHarmless(d, n)
    ensures ListHarmless(d, n.ctes) && AllHarmless(d, n.left) && AllHarmless(d, n.right)
    ensures n.limit.Some? ==> AllHarmless(d, n.limit.value)
    ensures !n.recursive
  {
    SelfHarmless(d, n);
    KidsHarmless(d, n, n.ctes);
    KidHarmless(d, n, n.left);
    KidHarmless(d, n, n.right);
    if n.limit.Some? {
      assert n.limit.value in OptSeq(n.limit);
      KidHarmless(d, n, n.limit.value);
    }
  }

  lemma {:induction false} ReadsQ(s: Server, d: DenyLists, fuel: nat, w: World, env: Env, outer: Scope, n: Node)
    requires Honest(s, d) && AllHarmless(d, n)
    ensures RunQ(s, fuel, w, env, outer, n) == Out(EvalQ(s.lib, w.tables, env, outer, n), w)
    decreases n, 2, 0
  {
    hide Honest, AllHarmless;
    if IsQuery(n) {
      if n.Select? { SelectKids(d, n); } else { SetOpKids(d, n); }
      ReadsCtes(s, d, fuel, w, env, outer, n.ctes);
      var env1 := EvalCtes(s.lib, w.tables, env, outer, n.ctes);
      ReadsLimit(s, d, fuel, w, env1, n.limit);
      if n.Select? {
        ReadsSelect(s, d, fuel, w, env1, outer, n);
      } else {
        ReadsQ(s, d, fuel, w, env1, outer, n.left);
        ReadsQ(s, d, fuel, w, env1, outer, n.right);
        assert EvalBody(s.lib, w.tables, env1, outer, n) ==
          Arranged(s.lib, n, EvalQ(s.lib, w.tables, env1, outer, n.left), EvalQ(s.lib, w.tables, env1, outer, n.right));
      }
    }
  }

  lemma {:induction false} ReadsSelect(s: Server, d: DenyLists, fuel: nat, w: World, env: Env, outer: Scope, n: Node)
    requires Honest(s, d) && AllHarmless(d, n) && n.Select?
    ensures RunSelect(s, fuel, w, env, outer, n) == Out(EvalRows(s.lib, w.tables, env, outer, n), w)
    decreases n, 1
  {
    hide Honest, AllHarmless;
    SelectKids(d, n);
    ReadsGroups(s, d, fuel, w, env, outer, n);
    ReadsRows(s, d, fuel, w, env, outer, EvalGroups(s.lib, w.tables, env, outer, n), n);
  }

  lemma {:induction false} ReadsGroups(s: Server, d: DenyLists, fuel: nat, w: World, env: Env, outer: Scope, n: Node)
    requires Honest(s, d) && AllHarmless(d, n) && n.Select?
    ensures RunGroups(s, fuel, w, env, outer, n) == Out(EvalGroups(s.lib, w.tables, env, outer, n), w)
    decreases n, 0, 1
  {
    hide Honest, AllHarmless, RunParts, EvalParts;
    SelectKids(d, n);
    ReadsParts(s, d, fuel, w, env, outer, n);
    if n.having.Some? {
      ReadsInGroups(s, d, fuel, w, env, outer, EvalParts(s.lib, w.tables, env, outer, n), n.having.value);
    }
  }

  lemma {:induction false} ReadsParts(s: Server, d: DenyLists, fuel: nat, w: World, env: Env, outer: Scope, n: Node)
    requires Honest(s, d) && AllHarmless(d, n) && n.Select?
    ensures RunParts(s, fuel, w, env, outer, n) == Out(EvalParts(s.lib, w.tables, env, outer, n), w)
    decreases n, 0, 0
  {
    hide Honest, AllHarmless;
    SelectKids(d, n);
    ReadsFroms(s, d, fuel, w, env, outer, n.sources);
    var kept := EvalFroms(s.lib, w.tables, env, outer, n.sources);
    if n.cond.Some? {
      ReadsKeep(s, d, fuel, w, env, outer, kept, n.cond.value);
      kept := Keep(kept, EvalFlags(s.lib, w.tables, env, outer, kept, n.cond.value));
    }
    assert kept == EvalKept(s.lib, w.tables, env, outer, n);
    if n.keys != [] { ReadsKeys(s, d, fuel, w, env, outer, kept, n.keys); }
  }

  lemma {:induction false} ReadsInGroups(s: Server, d: DenyLists, fuel: nat, w: World, env: Env, outer: Scope, groups: seq<seq<Frame>>, n: Node)
    requires Honest(s, d) && AllHarmless(d, n)
    ensures RunInGroups(s, fuel, w, env, outer, groups, n) == Out(EvalInGroups(s.lib, w.tables, env, outer, groups, n), w)
    decreases n, 4, |groups|
  {
    hide Honest, AllHarmless;
    if groups != [] {
      ReadsE(s, d, fuel, w, env, outer, groups[0], n);
      ReadsInGroups(s, d, fuel, w, env, outer, groups[1..], n);
      InGroupsCons(s.lib, w.tables, env, outer, groups, n);
      hide EvalE, RunE, EvalInGroups;
    }
  }

  lemma {:induction false} ReadsLimit(s: Server, d: DenyLists, fuel: nat, w: World, env: Env, limit: Option<Node>)
    requires Honest(s, d) && (limit.Some? ==> AllHarmless(d, limit.value))
    ensures RunLimit(s, fuel, w, env, limit) == Out(EvalLimit(s.lib, w.tables, env, limit), w)
    decreases limit, 3
  {
    hide Honest, AllHarmless;
    if limit.Some? { ReadsE(s, d, fuel, w, env, [], [], limit.value); }
  }

  lemma {:induction false} ReadsCtes(s: Server, d: DenyLists, fuel: nat, w: World, env: Env, outer: Scope, cs: seq<Node>)
    requires Honest(s, d) && ListHarmless(d, cs)
    ensures RunCtes(s, fuel, w, env, outer, false, cs) == Out(EvalCtes(s.lib, w.tables, env, outer, cs), w)
    decreases cs, 0
  {
    hide Honest, AllHarmless;
    if cs != [] {
      var env1 := env;
      if cs[0].Cte? {
        SelfHarmless(d, cs[0]);
        KidHarmless(d, cs[0], cs[0].body);
        ReadsQ(s, d, fuel, w, env, outer, cs[0].body);
        env1 := env[cs[0].alias := EvalQ(s.lib, w.tables, env, outer, cs[0].body)];
      }
      ReadsCtes(s, d, fuel, w, env1, outer, cs[1..]);
    }
  }

  lemma {:induction false} ReadsFroms(s: Server, d: DenyLists, fuel: nat, w: World, env: Env, outer: Scope, ns: seq<Node>)
    requires Honest(s, d) && ListHarmless(d, ns)
    ensures RunFroms(s, fuel, w, env, outer, ns) == Out(EvalFroms(s.lib, w.tables, env, outer, ns), w)
    decreases ns, 0
  {
    hide Honest, AllHarmless;
    if ns != [] {
      ReadsF(s, d, fuel, w, env, outer, ns[0]);
      ReadsFroms(s, d, fuel, w, env, outer, ns[1..]);
    }
  }

  lemma {:induction false} ReadsF(s: Server, d: DenyLists, fuel: nat, w: World, env: Env, outer: Scope, n: Node)
    requires Honest(s, d) && AllHarmless(d, n)
    ensures RunF(s, fuel, w, env, outer, n) == Out(EvalF(s.lib, w.tables, env, outer, n), w)
    decreases n, 3
  {
    hide Honest, AllHarmless;
    SelfHarmless(d, n);
    if n.Derived? {
      KidHarmless(d, n, n.query);
      ReadsQ(s, d, fuel, w, env, outer, n.query);
    } else if n.Join? {
      ReadsJoin(s, d, fuel, w, env, outer, n);
    }
  }

  lemma {:induction false} ReadsJoin(s: Server, d: DenyLists, fuel: nat, w: World, env: Env, outer: Scope, n: Node)
    requires Honest(s, d) && AllHarmless(d, n) && n.Join?
    ensures RunF(s, fuel, w, env, outer, n) == Out(EvalF(s.lib, w.tables, env, outer, n), w)
    decreases n, 2
  {
    hide Honest, AllHarmless;
    KidHarmless(d, n, n.left);
    KidHarmless(d, n, n.right);
    ReadsF(s, d, fuel, w, env, outer, n.left);
    ReadsF(s, d, fuel, w, env, outer, n.right);
    var l := EvalF(s.lib, w.tables, env, outer, n.left);
    var r := EvalF(s.lib, w.tables, env, outer, n.right);
    ReadsLeftRows(s, d, fuel, w, env, outer, n, l, r);
    if KeepsRight(n.side) { ReadsRightRows(s, d, fuel, w, env, outer, n, l, r); }
    hide RunLeftRows, RunRightRows, EvalLeftRows, EvalRightRows;
  }

  lemma {:induction false} ReadsMatches(s: Server, d: DenyLists, fuel: nat, w: World, env: Env, outer: Scope, n: Node, f: Frame, r: seq<Frame>)
    requires Honest(s, d) && AllHarmless(d, n) && n.Join?
    ensures RunMatches(s, fuel, w, env, outer, n, f, r) == Out(EvalMatches(s.lib, w.tables, env, outer, n, f, r), w)
    decreases n, 0
  {
    hide Honest, AllHarmless;
    if n.on.Some? {
      assert n.on.value in OptSeq(n.on);
      KidHarmless(d, n, n.on.value);
      ReadsEach(s, d, fuel, w, env, outer, Probe(f, r), n.on.value);
    }
  }

  lemma {:induction false} ReadsLeftRows(s: Server, d: DenyLists, fuel: nat, w: World, env: Env, outer: Scope, n: Node, l: seq<Frame>, r: seq<Frame>)
    requires Honest(s, d) && AllHarmless(d, n) && n.Join?
    ensures RunLeftRows(s, fuel, w, env, outer, n, l, r) == Out(EvalLeftRows(s.lib, w.tables, env, outer, n, l, r), w)
    decreases n, 1, |l|
  {
    hide Honest, AllHarmless;
    if l != [] {
      ReadsMatches(s, d, fuel, w, env, outer, n, l[0], r);
      ReadsLeftRows(s, d, fuel, w, env, outer, n, l[1..], r);
    }
  }

  lemma {:induction false} ReadsRightRows(s: Server, d: DenyLists, fuel: nat, w: World, env: Env, outer: Scope, n: Node, l: seq<Frame>, r: seq<Frame>)
    requires Honest(s, d) && AllHarmless(d, n) && n.Join?
    ensures RunRightRows(s, fuel, w, env, outer, n, l, r) == Out(EvalRightRows(s.lib, w.tables, env, outer, n, l, r), w)
    decreases n, 1, 1, |r|
  {
    hide Honest, AllHarmless;
    if r != [] {
      ReadsMatched(s, d, fuel, w, env, outer, n, l, r[0]);
      ReadsRightRows(s, d, fuel, w, env, outer, n, l, r[1..]);
    }
  }

  lemma {:induction false} ReadsMatched(s: Server, d: DenyLists, fuel: nat, w: World, env: Env, outer: Scope, n: Node, l: seq<Frame>, g: Frame)
    requires Honest(s, d) && AllHarmless(d, n) && n.Join?
    ensures RunMatched(s, fuel, w, env, outer, n, l, g) == Out(EvalMatched(s.lib, w.tables, env, outer, n, l, g), w)
    decreases n, 1, 0, |l|
  {
    hide Honest, AllHarmless;
    if l != [] {
      ReadsMatches(s, d, fuel, w, env, outer, n, l[0], [g]);
      ReadsMatched(s, d, fuel, w, env, outer, n, l[1..], g);
    }
  }

  lemma {:induction false} ReadsE(s: Server, d: DenyLists, fuel: nat, w: World, env: Env, outer: Scope, group: seq<Frame>, n: Node)
    requires Honest(s, d) && AllHarmless(d, n)
    ensures RunE(s, fuel, w, env, outer, group, n) == Out(EvalE(s.lib, w.tables, env, outer, group, n), w)
    decreases n, 3
  {
    hide Honest, AllHarmless, RunE, EvalE;
    if n.Count? || n.Agg? {
      ReadsAggregate(s, d, fuel, w, env, outer, group, n);
    } else if n.Call? {
      ReadsCallValue(s, d, fuel, w, env, outer, group, n);
    } else if n.Test? {
      ReadsTest(s, d, fuel, w, env, outer, group, n);
    } else if n.As? {
      ReadsAs(s, d, fuel, w, env, outer, group, n);
    } else if IsQuery(n) {
      ReadsScalar(s, d, fuel, w, env, outer, group, n);
    } else {
      ReadsLeaf(s, d, fuel, w, env, outer, group, n);
    }
  }

  lemma {:induction false} ReadsAs(s: Server, d: DenyLists, fuel: nat, w: World, env: Env, outer: Scope, group: seq<Frame>, n: Node)
    requires Honest(s, d) && AllHarmless(d, n) && n.As?
    ensures RunE(s, fuel, w, env, outer, group, n) == Out(EvalE(s.lib, w.tables, env, outer, group, n), w)
    decreases n, 2
  {
    hide Honest, AllHarmless;
    KidHarmless(d, n, n.e);
    ReadsE(s, d, fuel, w, env, outer, group, n.e);
  }

  lemma {:induction false} ReadsScalar(s: Server, d: DenyLists, fuel: nat, w: World, env: Env, outer: Scope, group: seq<Frame>, n: Node)
    requires Honest(s, d) && AllHarmless(d, n) && IsQuery(n)
    ensures RunE(s, fuel, w, env, outer, group, n) == Out(EvalE(s.lib, w.tables, env, outer, group, n), w)
    decreases n, 2, 1
  {
    hide Honest, AllHarmless;
    ReadsQ(s, d, fuel, w, env, [Current(group)] + outer, n);
  }

  lemma {:induction false} ReadsCallValue(s: Server, d: DenyLists, fuel: nat, w: World, env: Env, outer: Scope, group: seq<Frame>, n: Node)
    requires Honest(s, d) && AllHarmless(d, n) && n.Call?
    ensures RunE(s, fuel, w, env, outer, group, n) == Out(EvalE(s.lib, w.tables, env, outer, group, n), w)
    decreases n, 2
  {
    hide Honest, AllHarmless;
    ReadsCall(s, d, fuel, w, env, outer, group, n);
  }

  lemma ReadsLeaf(s: Server, d: DenyLists, fuel: nat, w: World, env: Env, outer: Scope, group: seq<Frame>, n: Node)
    requires Honest(s, d) && AllHarmless(d, n) && !IsQuery(n)
    requires !n.Count? && !n.Agg? && !n.Call? && !n.Test? && !n.As?
    ensures RunE(s, fuel, w, env, outer, group, n) == Out(EvalE(s.lib, w.tables, env, outer, group, n), w)
  {
    SelfHarmless(d, n);
    hide AllHarmless;
  }

  lemma {:induction false} ReadsAggregate(s: Server, d: DenyLists, fuel: nat, w: World, env: Env, outer: Scope, group: seq<Frame>, n: Node)
    requires Honest(s, d) && AllHarmless(d, n) && (n.Count? || n.Agg?)
    ensures RunE(s, fuel, w, env, outer, group, n) == Out(EvalE(s.lib, w.tables, env, outer, group, n), w)
    decreases n, 2
  {
    hide Honest, AllHarmless;
    KidHarmless(d, n, n.arg);
    ReadsEach(s, d, fuel, w, env, outer, group, n.arg);
    if n.Agg? { FoldsPurely(s, d, n, EvalEach(s.lib, w.tables, env, outer, group, n.arg), w); }
  }

  lemma {:induction false} ReadsTest(s: Server, d: DenyLists, fuel: nat, w: World, env: Env, outer: Scope, group: seq<Frame>, n: Node)
    requires Honest(s, d) && AllHarmless(d, n) && n.Test?
    ensures RunE(s, fuel, w, env, outer, group, n) == Out(EvalE(s.lib, w.tables, env, outer, group, n), w)
    decreases n, 2
  {
    hide Honest, AllHarmless;
    KidHarmless(d, n, n.e);
    KidHarmless(d, n, n.query);
    ReadsE(s, d, fuel, w, env, outer, group, n.e);
    ReadsQ(s, d, fuel, w, env, [Current(group)] + outer, n.query);
  }

  /** An aggregate the deny lists pass computes its value and nothing else. */
  lemma FoldsPurely(s: Server, d: DenyLists, n: Node, vs: seq<Value>, w: World)
    requires Honest(s, d) && AllHarmless(d, n) && n.Agg?
    ensures s.fold(n.fn, vs, w) == (s.lib.agg(n.fn, vs), w)
  {
    SelfHarmless(d, n);
  }

  lemma {:induction false} ReadsCall(s: Server, d: DenyLists, fuel: nat, w: World, env: Env, outer: Scope, group: seq<Frame>, n: Node)
    requires Honest(s, d) && AllHarmless(d, n) && n.Call?
    ensures RunCall(s, fuel, w, env, outer, group, n) == Out([EvalE(s.lib, w.tables, env, outer, group, n)], w)
    decreases n, 0
  {
    SelfHarmless(d, n);
    KidsHarmless(d, n, n.args);
    ReadsList(s, d, fuel, w, env, outer, group, n.args);
  }

  lemma {:induction false} ReadsValues(s: Server, d: DenyLists, fuel: nat, w: World, env: Env, outer: Scope, group: seq<Frame>, n: Node)
    requires Honest(s, d) && AllHarmless(d, n)
    ensures RunValues(s, fuel, w, env, outer, group, n) == Out([EvalE(s.lib, w.tables, env, outer, group, n)], w)
    decreases n, 4
  {
    hide Honest, AllHarmless;
    if n.Call? {
      ReadsCall(s, d, fuel, w, env, outer, group, n);
    } else if n.As? {
      KidHarmless(d, n, n.e);
      ReadsValues(s, d, fuel, w, env, outer, group, n.e);
    } else {
      ReadsE(s, d, fuel, w, env, outer, group, n);
    }
  }

  lemma {:induction false} ReadsEach(s: Server, d: DenyLists, fuel: nat, w: World, env: Env, outer: Scope, frames: seq<Frame>, n: Node)
    requires Honest(s, d) && AllHarmless(d, n)
    ensures RunEach(s, fuel, w, env, outer, frames, n) == Out(EvalEach(s.lib, w.tables, env, outer, frames, n), w)
    decreases n, 4, |frames|
  {
    hide Honest, AllHarmless;
    if frames != [] {
      ReadsE(s, d, fuel, w, env, outer, [frames[0]], n);
      ReadsEach(s, d, fuel, w, env, outer, frames[1..], n);
      EachCons(s.lib, w.tables, env, outer, frames, n);
      hide EvalE, RunE, EvalEach;
    }
  }

  lemma {:induction false} ReadsKeep(s: Server, d: DenyLists, fuel: nat, w: World, env: Env, outer: Scope, frames: seq<Frame>, n: Node)
    requires Honest(s, d) && AllHarmless(d, n)
    ensures RunKeep(s, fuel, w, env, outer, frames, n)
         == Out(Keep(frames, EvalFlags(s.lib, w.tables, env, outer, frames, n)), w)
    decreases n, 5
  {
    hide Honest, AllHarmless;
    ReadsEach(s, d, fuel, w, env, outer, frames, n);
  }

  lemma {:induction false} ReadsList(s: Server, d: DenyLists, fuel: nat, w: World, env: Env, outer: Scope, group: seq<Frame>, ns: seq<Node>)
    requires Honest(s, d) && ListHarmless(d, ns)
    ensures RunList(s, fuel, w, env, outer, group, ns) == Out(EvalList(s.lib, w.tables, env, outer, group, ns), w)
    decreases ns, 0
  {
    hide Honest, AllHarmless;
    if ns != [] {
      ReadsE(s, d, fuel, w, env, outer, group, ns[0]);
      ReadsList(s, d, fuel, w, env, outer, group, ns[1..]);
    }
  }

  lemma {:induction false} ReadsKeys(s: Server, d: DenyLists, fuel: nat, w: World, env: Env, outer: Scope, frames: seq<Frame>, ns: seq<Node>)
    requires Honest(s, d) && ListHarmless(d, ns)
    ensures RunKeys(s, fuel, w, env, outer, frames, ns) == Out(EvalKeys(s.lib, w.tables, env, outer, frames, ns), w)
    decreases ns, 1, |frames|
  {
    hide Honest, AllHarmless;
    if frames != [] {
      ReadsList(s, d, fuel, w, env, outer, [frames[0]], ns);
      ReadsKeys(s, d, fuel, w, env, outer, frames[1..], ns);
      assert EvalKeys(s.lib, w.tables, env, outer, frames, ns)
          == [EvalList(s.lib, w.tables, env, outer, [frames[0]], ns)] + EvalKeys(s.lib, w.tables, env, outer, frames[1..], ns) by {
        hide EvalList;
      }
    }
  }

  lemma {:induction false} ReadsTuple(s: Server, d: DenyLists, fuel: nat, w: World, env: Env, outer: Scope, group: seq<Frame>, ps: seq<Node>)
    requires Honest(s, d) && ListHarmless(d, ps)
    ensures RunTuple(s, fuel, w, env, outer, group, ps) == Out([EvalTuple(s.lib, w.tables, env, outer, group, ps)], w)
    decreases ps, 0
  {
    hide Honest, AllHarmless;
    if ps != [] {
      ReadsValues(s, d, fuel, w, env, outer, group, ps[0]);
      ReadsTuple(s, d, fuel, w, env, outer, group, ps[1..]);
      var v := EvalE(s.lib, w.tables, env, outer, group, ps[0]);
      FanSingle(Head(ps[0], v), EvalTuple(s.lib, w.tables, env, outer, group, ps[1..]));
      assert Heads(ps[0], [v]) == [Head(ps[0], v)];
    }
  }

  lemma FanSingle(head: Tuple, tail: Tuple)
    ensures Fan([head], [tail]) == [head + tail]
  {
    assert Fan([head][1..], [tail]) == [];
  }

  lemma {:induction false} ReadsRows(s: Server, d: DenyLists, fuel: nat, w: World, env: Env, outer: Scope, groups: seq<seq<Frame>>, n: Node)
    requires Honest(s, d) && AllHarmless(d, n) && n.Select?
    ensures RunRows(s, fuel, w, env, outer, groups, n) == Out(EvalTuples(s.lib, w.tables, env, outer, groups, n), w)
    decreases n, 0, |groups|
  {
    hide Honest, AllHarmless;
    if groups != [] {
      SelectKids(d, n);
      var t := EvalTuple(s.lib, w.tables, env, outer, groups[0], n.projs);
      ReadsTuple(s, d, fuel, w, env, outer, groups[0], n.projs);
      ReadsOrder(s, d, fuel, w, env, outer, groups[0], t, n.order);
      RankedOne(s, fuel, w, env, outer, groups[0], t, n.order);
      ReadsRows(s, d, fuel, w, env, outer, groups[1..], n);
      TuplesCons(s.lib, w.tables, env, outer, groups, n);
      hide EvalTuple, EvalOrder, RunTuple, RunOrder, EvalTuples;
    }
  }

  lemma RankedOne(s: Server, fuel: nat, w: World, env: Env, outer: Scope, group: seq<Frame>, t: Tuple, os: seq<Node>)
    requires RunOrder(s, fuel, w, env, outer, group, t, os).w == w
    ensures RunRanked(s, fuel, w, env, outer, group, [t], os) == Out([Ranked(t, RunOrder(s, fuel, w, env, outer, group, t, os).v)], w)
  {
    var none: Rel := [];
    assert [t][1..] == none;
    var k := RunOrder(s, fuel, w, env, outer, group, t, os);
    assert RunRanked(s, fuel, w, env, outer, group, none, os) == Out([], w);
    assert [Ranked(t, k.v)] + [] == [Ranked(t, k.v)];
  }

  lemma {:induction false} ReadsOrder(s: Server, d: DenyLists, fuel: nat, w: World, env: Env, outer: Scope, group: seq<Frame>, t: Tuple, os: seq<Node>)
    requires Honest(s, d) && ListHarmless(d, os)
    ensures RunOrder(s, fuel, w, env, outer, group, t, os) == Out(EvalOrder(s.lib, w.tables, env, outer, group, t, os), w)
    decreases os, 0
  {
    hide Honest, AllHarmless;
    if os != [] {
      ReadsKey(s, d, fuel, w, env, outer, group, t, os[0]);
      ReadsOrder(s, d, fuel, w, env, outer, group, t, os[1..]);
    }
  }

  lemma {:induction false} ReadsKey(s: Server, d: DenyLists, fuel: nat, w: World, env: Env, outer: Scope, group: seq<Frame>, t: Tuple, o: Node)
    requires Honest(s, d) && AllHarmless(d, o)
    ensures RunKey(s, fuel, w, env, outer, group, t, o) == Out(EvalKey(s.lib, w.tables, env, outer, group, t, o), w)
    decreases o, 4
  {
    hide Honest, AllHarmless;
    if o.Ordered? {
      KidHarmless(d, o, o.e);
      ReadsE(s, d, fuel, w, env, outer, group, o.e);
    }
  }
}
