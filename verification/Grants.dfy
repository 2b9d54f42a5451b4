/** Reconciling each profile's database role with its declared tables.

    `State` is the database's side: the tables each role may SELECT from and how many GRANT and REVOKE
    statements have been committed. `All` says what a run of reconciliation does to it, `Catalog` does
    it one statement at a time. Lists sorted for display are sets here. */
module Grants {
  import opened Prelude

  type Tables = set<string>

  datatype Profile = Profile(name: string, role: string, tables: Tables, selfReferential: bool, viewsMatch: bool)

  datatype Drift = Drift(granted: Tables, revoked: Tables, skipped: string)

  datatype GrantError = SelfReference | RoleMissing | NoMembership | ViewDrift | StatementFailed

  datatype Statement = Grant(role: string, table: string) | Revoke(role: string, table: string)

  /** What reconciliation cannot change: the roles there are, those the current user belongs to, and the
      statements the server would refuse. */
  datatype Server = Server(roles: set<string>, memberships: set<string>, refused: set<Statement>)

  datatype State = State(grants: map<string, Tables>, statements: nat)

  datatype Outcome = Outcome(state: State, drifts: map<string, Drift>, error: Option<GrantError>)

  const NO_DRIFT := Drift({}, {}, "")

  function Held(grants: map<string, Tables>, role: string): Tables { if role in grants then grants[role] else {} }

  /** The profile's role is set up as reconciliation demands before it compares anything. */
  predicate Ready(server: Server, p: Profile) {
    !p.selfReferential && p.role in server.roles && p.role in server.memberships && p.viewsMatch
  }

  /** The outcome of a profile that is not ready. */
  function Unready(server: Server, p: Profile, strict: bool): (r: Result<Drift, GrantError>)
    requires !Ready(server, p)
  {
    if p.selfReferential then Failed(SelfReference)
    else if p.role !in server.roles then if strict then Failed(RoleMissing) else Ok(Drift({}, {}, "role_missing"))
    else if p.role !in server.memberships then if strict then Failed(NoMembership) else Ok(Drift({}, {}, "no_membership"))
    else Failed(ViewDrift)
  }

  predicate AllAllowed(server: Server, role: string, granted: Tables, revoked: Tables) {
    (forall t | t in granted :: Grant(role, t) !in server.refused) && forall t | t in revoked :: Revoke(role, t) !in server.refused
  }

  /** Reconciling one profile: what it reports and the state it leaves. */
  function One(server: Server, db: State, p: Profile, strict: bool, apply: bool): (State, Result<Drift, GrantError>) {
    if !Ready(server, p) then (db, Unready(server, p, strict))
    else
      var granted, revoked := p.tables - Held(db.grants, p.role), Held(db.grants, p.role) - p.tables;
      if !apply || (granted == {} && revoked == {}) then (db, Ok(Drift(granted, revoked, "")))
      else if !AllAllowed(server, p.role, granted, revoked) then (db, Failed(StatementFailed))
      else (State(db.grants[p.role := p.tables], db.statements + |granted| + |revoked|), Ok(Drift(granted, revoked, "")))
  }

  /** Reconciling profiles in order, up to the first that raises. */
  function All(server: Server, db: State, ps: seq<Profile>, strict: bool, apply: bool): Outcome {
    if ps == [] then Outcome(db, map[], None)
    else
      var before := All(server, db, ps[..|ps| - 1], strict, apply);
      if before.error.Some? then before
      else
        var p := ps[|ps| - 1];
        var (state, r) := One(server, before.state, p, strict, apply);
        match r
        case Ok(drift) => Outcome(state, before.drifts[p.name := drift], None)
        case Failed(e) => Outcome(state, before.drifts, Some(e))
  }

  /** Profiles are kept by name. */
  ghost predicate NamesDistinct(ps: seq<Profile>) {
    forall i, j | 0 <= i < j < |ps| :: ps[i].name != ps[j].name
  }

  /** Profiles that share a role declare the same tables. */
  ghost predicate RolesAgree(ps: seq<Profile>) {
    forall i, j | 0 <= i < j < |ps| && ps[i].role == ps[j].role :: ps[i].tables == ps[j].tables
  }

  /** The numbers of grants and revokes reported, over all profiles. */
  function Reported(d: map<string, Drift>, ps: seq<Profile>): nat {
    if ps == [] then 0
    else
      var last := ps[|ps| - 1].name;
      Reported(d, ps[..|ps| - 1]) + if last in d then |d[last].granted| + |d[last].revoked| else 0
  }

  lemma {:induction false} ReportedIgnores(d: map<string, Drift>, ps: seq<Profile>, name: string, x: Drift)
    requires forall i | 0 <= i < |ps| :: ps[i].name != name
    ensures Reported(d[name := x], ps) == Reported(d, ps)
  {
    if ps != [] { ReportedIgnores(d, ps[..|ps| - 1], name, x); }
  }

  /** A role that is the role of no profile holds what it held. */
  lemma {:induction false} OtherRolesUntouched(server: Server, db: State, ps: seq<Profile>, strict: bool, apply: bool, role: string)
    requires forall i | 0 <= i < |ps| :: ps[i].role != role
    ensures Held(All(server, db, ps, strict, apply).state.grants, role) == Held(db.grants, role)
  {
    if ps != [] { OtherRolesUntouched(server, db, ps[..|ps| - 1], strict, apply, role); }
  }

  /** Every profile reported is in the report, and no other. */
  lemma {:induction false} ReportIsComplete(server: Server, db: State, ps: seq<Profile>, strict: bool, apply: bool)
    requires All(server, db, ps, strict, apply).error.None?
    ensures forall name :: name in All(server, db, ps, strict, apply).drifts <==> exists i | 0 <= i < |ps| :: ps[i].name == name
    ensures strict ==> forall i | 0 <= i < |ps| :: Ready(server, ps[i])
  {
    if ps != [] {
      var some := ps[..|ps| - 1];
      ReportIsComplete(server, db, some, strict, apply);
      assert forall i | 0 <= i < |some| :: ps[i] == some[i];
    }
  }

  /** A successful apply commits exactly as many statements as it reports; a check commits none. */
  lemma {:induction false} StatementsAreReported(server: Server, db: State, ps: seq<Profile>, strict: bool, apply: bool)
    requires NamesDistinct(ps)
    requires All(server, db, ps, strict, apply).error.None?
    ensures var out := All(server, db, ps, strict, apply);
            out.state.statements == db.statements + if apply then Reported(out.drifts, ps) else 0
    ensures !apply ==> All(server, db, ps, strict, apply).state == db
  {
    if ps != [] {
      var some, p := ps[..|ps| - 1], ps[|ps| - 1];
      var before := All(server, db, some, strict, apply);
      StatementsAreReported(server, db, some, strict, apply);
      var (_, r) := One(server, before.state, p, strict, apply);
      ReportedIgnores(before.drifts, some, p.name, r.value);
    }
  }

  lemma OneExact(server: Server, db: State, p: Profile, role: string)
    requires One(server, db, p, true, true).1.Ok?
    ensures Held(One(server, db, p, true, true).0.grants, role) == if role == p.role then p.tables else Held(db.grants, role)
  {
    var held := Held(db.grants, p.role);
    if p.tables - held == {} && held - p.tables == {} { assert held == p.tables; }
  }

  /** After a successful strict apply each profile's role holds SELECT on exactly its declared tables. */
  lemma {:induction false} EachRoleExact(server: Server, db: State, ps: seq<Profile>)
    requires RolesAgree(ps) && All(server, db, ps, true, true).error.None?
    ensures forall i | 0 <= i < |ps| :: Held(All(server, db, ps, true, true).state.grants, ps[i].role) == ps[i].tables
  {
    if ps != [] {
      var some, p := ps[..|ps| - 1], ps[|ps| - 1];
      var before := All(server, db, some, true, true);
      assert forall i | 0 <= i < |some| :: ps[i] == some[i];
      EachRoleExact(server, db, some);
      forall i | 0 <= i < |ps| ensures Held(All(server, db, ps, true, true).state.grants, ps[i].role) == ps[i].tables {
        OneExact(server, before.state, p, ps[i].role);
      }
    }
  }

  /** With nothing to do, every profile reports no drift and the state stays. */
  lemma {:induction false} SettledStays(server: Server, db: State, ps: seq<Profile>, apply: bool)
    requires forall i | 0 <= i < |ps| :: Ready(server, ps[i]) && Held(db.grants, ps[i].role) == ps[i].tables
    ensures var out := All(server, db, ps, true, apply);
            out.error.None? && out.state == db && forall name | name in out.drifts :: out.drifts[name] == NO_DRIFT
  {
    if ps != [] {
      assert forall i | 0 <= i < |ps| - 1 :: ps[..|ps| - 1][i] == ps[i];
      SettledStays(server, db, ps[..|ps| - 1], apply);
    }
  }

  /** The converse: a run that reports no drift found every role exact, and changed nothing. */
  lemma {:induction false} NoDriftMeansSettled(server: Server, db: State, ps: seq<Profile>, apply: bool)
    requires NamesDistinct(ps)
    requires var out := All(server, db, ps, true, apply);
             out.error.None? && forall name | name in out.drifts :: out.drifts[name] == NO_DRIFT
    ensures All(server, db, ps, true, apply).state == db
    ensures forall i | 0 <= i < |ps| :: Held(db.grants, ps[i].role) == ps[i].tables
  {
    if ps != [] {
      var some, p := ps[..|ps| - 1], ps[|ps| - 1];
      var before, out := All(server, db, some, true, apply), All(server, db, ps, true, apply);
      ReportIsComplete(server, db, some, true, apply);
      forall name | name in before.drifts ensures before.drifts[name] == NO_DRIFT {
        var i :| 0 <= i < |some| && some[i].name == name;
        assert ps[i].name == name && name != p.name;
        assert out.drifts[name] == before.drifts[name];
      }
      NoDriftMeansSettled(server, db, some, apply);
      assert p.name in out.drifts && out.drifts[p.name] == NO_DRIFT;
      var (_, r) := One(server, before.state, p, true, apply);
      assert p.tables - Held(db.grants, p.role) == {} && Held(db.grants, p.role) - p.tables == {};
      assert Held(db.grants, p.role) == p.tables;
      assert forall i | 0 <= i < |some| :: ps[i] == some[i];
    }
  }

  predicate NoDrift(out: Outcome) {
    out.error.None? && forall name | name in out.drifts :: out.drifts[name] == NO_DRIFT
  }

  /** Reconciliation has reached a fixed point after one successful strict apply, and a second run has
      nothing to report, exactly when profiles sharing a role declare the same tables. */
  lemma SecondRunReportsNoDrift(server: Server, db: State, ps: seq<Profile>, apply: bool)
    requires NamesDistinct(ps) && All(server, db, ps, true, true).error.None?
    ensures var first := All(server, db, ps, true, true).state;
            && (NoDrift(All(server, first, ps, true, apply)) <==> RolesAgree(ps))
            && (RolesAgree(ps) ==> All(server, first, ps, true, apply).state == first)
  {
    var first := All(server, db, ps, true, true).state;
    ReportIsComplete(server, db, ps, true, true);
    if RolesAgree(ps) {
      EachRoleExact(server, db, ps);
      SettledStays(server, first, ps, apply);
    }
    if NoDrift(All(server, first, ps, true, apply)) {
      NoDriftMeansSettled(server, first, ps, apply);
    }
  }

  /** A run that raises does so at one profile: those before it are reconciled as if they were the whole
      configuration, and that profile and all later ones change nothing. */
  lemma {:induction false} FailureKeepsTheRest(server: Server, db: State, ps: seq<Profile>, strict: bool, apply: bool) returns (k: nat)
    requires All(server, db, ps, strict, apply).error.Some?
    ensures k < |ps|
    ensures All(server, db, ps[..k], strict, apply).error.None?
    ensures All(server, db, ps, strict, apply).state == All(server, db, ps[..k], strict, apply).state
    ensures All(server, db, ps, strict, apply).drifts == All(server, db, ps[..k], strict, apply).drifts
    ensures One(server, All(server, db, ps[..k], strict, apply).state, ps[k], strict, apply).1 ==
            Failed(All(server, db, ps, strict, apply).error.value)
  {
    var some := ps[..|ps| - 1];
    if All(server, db, some, strict, apply).error.Some? {
      k := FailureKeepsTheRest(server, db, some, strict, apply);
      assert ps[..k] == some[..k] && ps[k] == some[k];
    } else {
      k := |some|;
    }
  }

  /** A role belonging only to profiles from the failing one on is untouched by a run that raises. */
  lemma FailureLeavesLaterRoles(server: Server, db: State, ps: seq<Profile>, strict: bool, apply: bool, role: string)
    returns (k: nat)
    requires All(server, db, ps, strict, apply).error.Some?
    ensures k < |ps|
    ensures (forall i | 0 <= i < k :: ps[i].role != role) ==>
              Held(All(server, db, ps, strict, apply).state.grants, role) == Held(db.grants, role)
    ensures strict && apply && RolesAgree(ps) ==> forall i | 0 <= i < k ::
              Held(All(server, db, ps, strict, apply).state.grants, ps[i].role) == ps[i].tables
  {
    k := FailureKeepsTheRest(server, db, ps, strict, apply);
    var done := ps[..k];
    assert forall i | 0 <= i < k :: done[i] == ps[i];
    if forall i | 0 <= i < k :: ps[i].role != role { OtherRolesUntouched(server, db, done, strict, apply, role); }
    if strict && apply && RolesAgree(ps) { EachRoleExact(server, db, done); }
  }

  /** Some statement the profile needs would be refused. */
  ghost predicate Needs(server: Server, grants: map<string, Tables>, p: Profile) {
    || (exists t :: t in p.tables && t !in Held(grants, p.role) && Grant(p.role, t) in server.refused)
    || (exists t :: t in Held(grants, p.role) && t !in p.tables && Revoke(p.role, t) in server.refused)
  }

  /** One profile, strict or lenient, applied or only checked: what is raised or reported, and what the
      role holds afterwards. */
  lemma OneExactly(server: Server, db: State, p: Profile, strict: bool, apply: bool)
    ensures var (now, r) := One(server, db, p, strict, apply);
            var held := Held(db.grants, p.role);
            var member, present := p.role in server.memberships, p.role in server.roles;
            && (r == Failed(SelfReference) <==> p.selfReferential)
            && (r == Failed(RoleMissing) <==> !p.selfReferential && !present && strict)
            && (r == Failed(NoMembership) <==> !p.selfReferential && present && !member && strict)
            && (r == Failed(ViewDrift) <==> !p.selfReferential && present && member && !p.viewsMatch)
            && (r == Failed(StatementFailed) <==>
                  !p.selfReferential && present && member && p.viewsMatch && apply && Needs(server, db.grants, p))
            && (r.Ok? && !present ==> r.value == Drift({}, {}, "role_missing"))
            && (r.Ok? && present && !member ==> r.value == Drift({}, {}, "no_membership"))
            && (r.Ok? && present && member ==>
                  && r.value.skipped == "" && (forall t :: t in r.value.granted <==> t in p.tables && t !in held)
                  && (forall t :: t in r.value.revoked <==> t in held && t !in p.tables))
            && Held(now.grants, p.role) == (if r.Ok? && present && member && apply then p.tables else held)
  {
    var held := Held(db.grants, p.role);
    if p.tables - held == {} && held - p.tables == {} { assert p.tables == held; }
  }

  /** Where no other profile shares its role, a profile's drift is its difference from what the role held
      before the run, and the role then holds what it declares, in lenient mode as in strict. */
  lemma {:induction false} DriftIsDifference(server: Server, db: State, ps: seq<Profile>, strict: bool, apply: bool, i: nat)
    requires i < |ps| && NamesDistinct(ps) && All(server, db, ps, strict, apply).error.None?
    requires forall j | 0 <= j < |ps| && j != i :: ps[j].role != ps[i].role
    ensures var out := All(server, db, ps, strict, apply);
            && ps[i].name in out.drifts && Ok(out.drifts[ps[i].name]) == One(server, db, ps[i], strict, apply).1
            && Held(out.state.grants, ps[i].role) == Held(One(server, db, ps[i], strict, apply).0.grants, ps[i].role)
  {
    var n := |ps| - 1;
    var some := ps[..n];
    var before := All(server, db, some, strict, apply);
    if i < n {
      assert some[i] == ps[i];
      assert forall j | 0 <= j < n && j != i :: some[j] == ps[j];
      DriftIsDifference(server, db, some, strict, apply, i);
      OtherRoleKept(server, before.state, ps[n], strict, apply, ps[i].role);
    } else {
      OtherRolesUntouched(server, db, some, strict, apply, ps[n].role);
      SameHeldSameOutcome(server, db, before.state, ps[n], strict, apply);
    }
  }

  lemma OtherRoleKept(server: Server, db: State, p: Profile, strict: bool, apply: bool, role: string)
    requires p.role != role
    ensures Held(One(server, db, p, strict, apply).0.grants, role) == Held(db.grants, role)
  {
  }

  lemma SameHeldSameOutcome(server: Server, a: State, b: State, p: Profile, strict: bool, apply: bool)
    requires Held(a.grants, p.role) == Held(b.grants, p.role)
    ensures One(server, a, p, strict, apply).1 == One(server, b, p, strict, apply).1
    ensures Held(One(server, a, p, strict, apply).0.grants, p.role) == Held(One(server, b, p, strict, apply).0.grants, p.role)
  {
  }

  function After(held: Tables, st: Statement): Tables {
    if st.Grant? then held + {st.table} else held - {st.table}
  }

  /** `now` is `was` except that `role` holds `held`; with nothing executed it is `was` itself. */
  ghost predicate Changed(was: map<string, Tables>, now: map<string, Tables>, role: string, idle: bool, held: Tables) {
    Held(now, role) == held && now == if idle then was else was[role := held]
  }

  /** What a role holds once the tables of `ts` outside `todo` have been granted. */
  ghost function Gained(first: Tables, ts: Tables, todo: Tables): Tables { first + (ts - todo) }

  lemma GainedEnds(first: Tables, ts: Tables)
    ensures Gained(first, ts, ts) == first && Gained(first, ts, {}) == first + ts
  {
  }

  lemma GainedStep(first: Tables, ts: Tables, todo: Tables, t: string)
    requires t in todo && todo <= ts
    ensures Gained(first, ts, todo - {t}) == Gained(first, ts, todo) + {t}
  {
  }

  lemma ChangedStep(was: map<string, Tables>, mid: map<string, Tables>, role: string, idle: bool, held: Tables, next: Tables)
    requires Changed(was, mid, role, idle, held)
    ensures Held(mid, role) == held && Changed(was, mid[role := next], role, false, next)
  {
  }

  /** Granting what is missing and then revoking what is not declared leaves the declared tables. */
  lemma Corrected(was: map<string, Tables>, mid: map<string, Tables>, now: map<string, Tables>, role: string, tables: Tables)
    requires var current := Held(was, role);
             var granted, revoked := tables - current, current - tables;
             && Changed(was, mid, role, granted == {}, current + granted)
             && Changed(mid, now, role, revoked == {}, Held(mid, role) - revoked)
    ensures now == if tables - Held(was, role) == {} && Held(was, role) - tables == {} then was else was[role := tables]
  {
    var current := Held(was, role);
    assert current + (tables - current) - (current - tables) == tables;
  }

  class Catalog {
    const server: Server
    var grants: map<string, Tables>
    var statements: nat

    constructor (server: Server, grants: map<string, Tables>)
      ensures this.server == server && View() == State(grants, 0)
    {
      this.server, this.grants, statements := server, grants, 0;
    }

    ghost function View(): State
      reads this
    {
      State(grants, statements)
    }

    /** Run one GRANT or REVOKE; a refused statement changes nothing. */
    method Execute(st: Statement) returns (ok: bool)
      modifies this
      ensures ok == (st !in server.refused)
      ensures ok ==> grants == old(grants)[st.role := After(old(Held(grants, st.role)), st)] && statements == old(statements) + 1
      ensures !ok ==> grants == old(grants) && statements == old(statements)
    {
      if st in server.refused { return false; }
      grants := grants[st.role := After(Held(grants, st.role), st)];
      statements := statements + 1;
      return true;
    }

    /** GRANT SELECT on each table of `ts` in turn, stopping at the first the server refuses. */
    method GrantAll(role: string, ts: Tables) returns (ok: bool)
      modifies this
      ensures ok == forall t | t in ts :: Grant(role, t) !in server.refused
      ensures ok ==> Changed(old(grants), grants, role, ts == {}, old(Held(grants, role)) + ts)
      ensures ok ==> statements == old(statements) + |ts|
    {
      var todo := ts;
      ghost var first := old(Held(grants, role));
      GainedEnds(first, ts);
      assert Changed(grants, grants, role, true, first);
      hide Gained, Changed, Held;
      while todo != {}
        invariant todo <= ts
        invariant forall t | t in ts && t !in todo :: Grant(role, t) !in server.refused
        invariant Changed(old(grants), grants, role, todo == ts, Gained(first, ts, todo))
        invariant statements == old(statements) + |ts| - |todo|
        decreases |todo|
      {
        var t :| t in todo;
        GainedStep(first, ts, todo, t);
        ChangedStep(old(grants), grants, role, todo == ts, Gained(first, ts, todo), Gained(first, ts, todo - {t}));
        var done := Execute(Grant(role, t));
        if !done { return false; }
        todo := todo - {t};
      }
      return true;
    }

    /** REVOKE SELECT on each table of `ts` in turn, stopping at the first the server refuses. */
    method RevokeAll(role: string, ts: Tables) returns (ok: bool)
      modifies this
      ensures ok == forall t | t in ts :: Revoke(role, t) !in server.refused
      ensures ok ==> Changed(old(grants), grants, role, ts == {}, old(Held(grants, role)) - ts)
      ensures ok ==> statements == old(statements) + |ts|
    {
      var todo := ts;
      ghost var first := old(Held(grants, role));
      while todo != {}
        invariant todo <= ts
        invariant forall t | t in ts && t !in todo :: Revoke(role, t) !in server.refused
        invariant Changed(old(grants), grants, role, todo == ts, first - (ts - todo))
        invariant statements == old(statements) + |ts| - |todo|
        decreases |todo|
      {
        var t :| t in todo;
        assert first - (ts - todo) - {t} == first - (ts - (todo - {t}));
        var done := Execute(Revoke(role, t));
        if !done { return false; }
        todo := todo - {t};
      }
      return true;
    }

    /** The transaction of one profile: grant what is missing, revoke what is not declared. A refused
        statement rolls it back. */
    method Correct(role: string, tables: Tables) returns (ok: bool)
      modifies this
      ensures var granted, revoked := tables - old(Held(grants, role)), old(Held(grants, role)) - tables;
              && ok == AllAllowed(server, role, granted, revoked)
              && (!ok ==> View() == old(View()))
              && (ok ==> View() == if granted == {} && revoked == {} then old(View())
                                   else State(old(grants)[role := tables], old(statements) + |granted| + |revoked|))
    {
      var current := Held(grants, role);
      var granted, revoked := tables - current, current - tables;
      var savedGrants, savedStatements := grants, statements;
      ok := GrantAll(role, granted);
      ghost var mid := grants;
      if ok {
        ok := RevokeAll(role, revoked);
        if ok { Corrected(savedGrants, mid, grants, role, tables); }
      }
      hide Changed, Held;
      if !ok {
        grants, statements := savedGrants, savedStatements;
        return;
      }
    }

    /** Reconcile one profile. */
    method ReconcileProfile(p: Profile, strict: bool, apply: bool) returns (r: Result<Drift, GrantError>)
      modifies this
      ensures (View(), r) == One(server, old(View()), p, strict, apply)
    {
      if p.selfReferential { return Failed(SelfReference); }
      if p.role !in server.roles {
        if strict { return Failed(RoleMissing); }
        return Ok(Drift({}, {}, "role_missing"));
      }
      if p.role !in server.memberships {
        if strict { return Failed(NoMembership); }
        return Ok(Drift({}, {}, "no_membership"));
      }
      if !p.viewsMatch { return Failed(ViewDrift); }
      var current := Held(grants, p.role);
      var granted, revoked := p.tables - current, current - p.tables;
      if apply && (granted != {} || revoked != {}) {
        var ok := Correct(p.role, p.tables);
        if !ok { return Failed(StatementFailed); }
      }
      return Ok(Drift(granted, revoked, ""));
    }

    /** Reconcile every profile in turn. */
    method ReconcileGrants(ps: seq<Profile>, strict: bool, apply: bool)
      returns (drifts: map<string, Drift>, error: Option<GrantError>)
      modifies this
      ensures Outcome(View(), drifts, error) == All(server, old(View()), ps, strict, apply)
    {
      drifts, error := map[], None;
      for i := 0 to |ps|
        invariant error.None?
        invariant Outcome(View(), drifts, None) == All(server, old(View()), ps[..i], strict, apply)
      {
        assert ps[..i + 1][..i] == ps[..i];
        var one := ReconcileProfile(ps[i], strict, apply);
        if one.Failed? {
          ghost var here := All(server, old(View()), ps[..i + 1], strict, apply);
          assert here == Outcome(View(), drifts, Some(one.error));
          FailureIsFinal(server, old(View()), ps, i + 1, strict, apply);
          return drifts, Some(one.error);
        }
        drifts := drifts[ps[i].name := one.value];
      }
      assert ps[..|ps|] == ps;
    }
  }

  lemma {:induction false} FailureIsFinal(server: Server, db: State, ps: seq<Profile>, n: nat, strict: bool, apply: bool)
    requires n <= |ps| && All(server, db, ps[..n], strict, apply).error.Some?
    ensures All(server, db, ps, strict, apply) == All(server, db, ps[..n], strict, apply)
  {
    if n == |ps| {
      assert ps[..n] == ps;
    } else {
      assert ps[..|ps| - 1][..n] == ps[..n];
      FailureIsFinal(server, db, ps[..|ps| - 1], n, strict, apply);
    }
  }
}
