/** The throttle with requests of one address and scope in flight together.

    A request checks the counter, does its work, seeds the counter and increments it; other requests and
    the clock may act between any two of these steps. `instance` numbers the window instances as they
    are seeded; the history variables record what happened in each. */
module ThrottleRace {
  import opened Prelude

  datatype Phase = Idle | Passed | Worked | Seeded

  datatype State = State(
    now: nat,
    live: bool, value: nat, expires: nat, instance: nat,
    phases: seq<Phase>,
    recorded: map<nat, nat>,
    warned: seq<nat>,
    worked: nat)

  datatype Action = Tick | Check(w: nat) | DoWork(w: nat) | Seed(w: nat) | Increment(w: nat)

  datatype Config = Config(threshold: nat, window: nat, workers: nat)

  predicate ValidConfig(c: Config) { c.threshold > 0 && c.window > 0 && c.workers > 0 }

  function Start(c: Config): State {
    State(0, false, 0, 0, 0, seq(c.workers, _ => Idle), map[], [], 0)
  }

  predicate Alive(s: State) { s.live && s.now < s.expires }

  /** The counter as read: zero when the key has expired. */
  function Reading(s: State): nat { if Alive(s) then s.value else 0 }

  predicate Enabled(s: State, a: Action) {
    match a
    case Tick => true
    case Check(w) => w < |s.phases| && s.phases[w] == Idle
    case DoWork(w) => w < |s.phases| && s.phases[w] == Passed
    case Seed(w) => w < |s.phases| && s.phases[w] == Worked
    case Increment(w) => w < |s.phases| && s.phases[w] == Seeded
  }

  /** One atomic step. An increment whose key has expired meanwhile fails and records nothing. */
  function Next(c: Config, s: State, a: Action): State
    requires Enabled(s, a)
  {
    match a
    case Tick => s.(now := s.now + 1)
    case Check(w) => if Reading(s) >= c.threshold then s else s.(phases := s.phases[w := Passed])
    case DoWork(w) => s.(phases := s.phases[w := Worked], worked := s.worked + 1)
    case Seed(w) =>
      if Alive(s) then s.(phases := s.phases[w := Seeded])
      else
        s.(phases := s.phases[w := Seeded], live := true, value := 0, expires := s.now + c.window,
           instance := s.instance + 1, recorded := s.recorded[s.instance + 1 := 0])
    case Increment(w) =>
      if !Alive(s) then s.(phases := s.phases[w := Idle])
      else
        s.(phases := s.phases[w := Idle], value := s.value + 1, recorded := s.recorded[s.instance := s.value + 1],
           warned := if s.value + 1 == c.threshold then s.warned + [s.instance] else s.warned)
  }

  predicate Runs(c: Config, s: State, acts: seq<Action>)
    decreases |acts|
  {
    acts == [] || (Enabled(s, acts[0]) && Runs(c, Next(c, s, acts[0]), acts[1..]))
  }

  function After(c: Config, s: State, acts: seq<Action>): State
    requires Runs(c, s, acts)
    decreases |acts|
  {
    if acts == [] then s else After(c, Next(c, s, acts[0]), acts[1..])
  }

  /** Requests past their check and not yet counted. */
  function InFlight(ps: seq<Phase>): (n: nat)
    ensures n <= |ps|
  {
    if ps == [] then 0 else InFlight(ps[..|ps| - 1]) + if ps[|ps| - 1] == Idle then 0 else 1
  }

  lemma {:induction false} InFlightUpdate(ps: seq<Phase>, w: nat, p: Phase)
    requires w < |ps|
    ensures InFlight(ps[w := p]) == InFlight(ps) - (if ps[w] == Idle then 0 else 1) + (if p == Idle then 0 else 1)
  {
    var qs := ps[w := p];
    var last := |ps| - 1;
    if w == last {
      assert qs[..last] == ps[..last];
    } else {
      assert qs[..last] == ps[..last][w := p];
      InFlightUpdate(ps[..last], w, p);
    }
  }

  /** Counted plus in flight never exceeds threshold + workers - 1, because a request passes its check
      only below the threshold and a step later moves one unit from the second term to the first. */
  ghost predicate Inv(c: Config, s: State) {
    && |s.phases| == c.workers
    && (s.live ==> s.instance in s.recorded && s.recorded[s.instance] == s.value)
    && (s.live ==> s.value + (if Alive(s) then InFlight(s.phases) else 0) <= c.threshold + c.workers - 1)
    && (forall i | i in s.recorded :: i <= s.instance && s.recorded[i] <= c.threshold + c.workers - 1)
    && (forall i | i in s.recorded :: multiset(s.warned)[i] == if s.recorded[i] >= c.threshold then 1 else 0)
    && (forall i | i in s.warned :: i in s.recorded)
  }

  lemma WarnSnoc(warned: seq<nat>, i: nat)
    ensures multiset(warned + [i]) == multiset(warned) + multiset{i}
  {
  }

  lemma StartInv(c: Config)
    requires ValidConfig(c)
    ensures Inv(c, Start(c))
  {
  }

  lemma StepInv(c: Config, s: State, a: Action)
    requires ValidConfig(c) && Inv(c, s) && Enabled(s, a)
    ensures Inv(c, Next(c, s, a))
  {
    match a
    case Tick =>
    case Check(w) => InFlightUpdate(s.phases, w, Passed);
    case DoWork(w) => InFlightUpdate(s.phases, w, Worked);
    case Seed(w) =>
      InFlightUpdate(s.phases, w, Seeded);
      assert s.instance + 1 !in s.warned;
    case Increment(w) => IncrementInv(c, s, w);
  }

  lemma IncrementInv(c: Config, s: State, w: nat)
    requires ValidConfig(c) && Inv(c, s) && Enabled(s, Increment(w))
    ensures Inv(c, Next(c, s, Increment(w)))
  {
    InFlightUpdate(s.phases, w, Idle);
    WarnSnoc(s.warned, s.instance);
  }

  lemma {:induction false} RunInv(c: Config, s: State, acts: seq<Action>)
    requires ValidConfig(c) && Inv(c, s) && Runs(c, s, acts)
    ensures Inv(c, After(c, s, acts))
    decreases |acts|
  {
    if acts != [] {
      StepInv(c, s, acts[0]);
      RunInv(c, Next(c, s, acts[0]), acts[1..]);
    }
  }

  /** With at most `workers` requests in flight, however interleaved, one window instance records at most
      threshold + workers - 1 attempts and warns once if it reaches the threshold, else never. */
  lemma InterleavedBound(c: Config, acts: seq<Action>, instance: nat)
    requires ValidConfig(c) && Runs(c, Start(c), acts)
    ensures var s := After(c, Start(c), acts);
            instance in s.recorded ==>
              && s.recorded[instance] <= c.threshold + c.workers - 1
              && multiset(s.warned)[instance] == (if s.recorded[instance] >= c.threshold then 1 else 0)
  {
    StartInv(c);
    RunInv(c, Start(c), acts);
  }

  // ----- the work done -----

  /** Requests that have done their work and are not yet counted. */
  function Uncounted(ps: seq<Phase>): nat {
    if ps == [] then 0 else Uncounted(ps[..|ps| - 1]) + Owes(ps[|ps| - 1])
  }

  function Owes(p: Phase): nat { if p == Worked || p == Seeded then 1 else 0 }

  lemma {:induction false} UncountedUpdate(ps: seq<Phase>, w: nat, p: Phase)
    requires w < |ps|
    ensures Uncounted(ps[w := p]) == Uncounted(ps) - Owes(ps[w]) + Owes(p)
  {
    var qs := ps[w := p];
    var last := |ps| - 1;
    if w == last {
      assert qs[..last] == ps[..last];
    } else {
      assert qs[..last] == ps[..last][w := p];
      UncountedUpdate(ps[..last], w, p);
    }
  }

  lemma {:induction false} UncountedInFlight(ps: seq<Phase>)
    ensures Uncounted(ps) <= InFlight(ps) && ((forall i | 0 <= i < |ps| :: ps[i] == Idle) ==> Uncounted(ps) == 0)
  {
    if ps != [] { UncountedInFlight(ps[..|ps| - 1]); }
  }

  /** No window has ended yet. */
  predicate FirstWindow(s: State) { s.instance == 0 || (s.instance == 1 && Alive(s)) }

  /** Until a window ends, every unit of work is counted or about to be. */
  ghost predicate Accounted(s: State) {
    && (s.instance == 0 ==> !s.live && s.value == 0 && forall i | 0 <= i < |s.phases| :: s.phases[i] != Seeded)
    && (FirstWindow(s) ==> s.worked == s.value + Uncounted(s.phases))
  }

  lemma StepAccounted(c: Config, s: State, a: Action)
    requires ValidConfig(c) && Accounted(s) && Enabled(s, a)
    ensures Accounted(Next(c, s, a)) && (FirstWindow(Next(c, s, a)) ==> FirstWindow(s))
  {
    match a
    case Tick =>
    case Check(w) => UncountedUpdate(s.phases, w, Passed);
    case DoWork(w) => UncountedUpdate(s.phases, w, Worked);
    case Seed(w) => UncountedUpdate(s.phases, w, Seeded);
    case Increment(w) => UncountedUpdate(s.phases, w, Idle);
  }

  lemma {:induction false} RunAccounted(c: Config, s: State, acts: seq<Action>)
    requires ValidConfig(c) && Accounted(s) && Runs(c, s, acts)
    ensures Accounted(After(c, s, acts))
    decreases |acts|
  {
    if acts != [] {
      StepAccounted(c, s, acts[0]);
      RunAccounted(c, Next(c, s, acts[0]), acts[1..]);
    }
  }

  lemma {:induction false} NothingOwed(n: nat)
    ensures Uncounted(seq(n, _ => Idle)) == 0
  {
    UncountedInFlight(seq(n, _ => Idle));
  }

  /** However interleaved, the requests of the first window do at most threshold + workers - 1 units of work. */
  lemma WorkBound(c: Config, acts: seq<Action>)
    requires ValidConfig(c) && Runs(c, Start(c), acts) && FirstWindow(After(c, Start(c), acts))
    ensures After(c, Start(c), acts).worked <= c.threshold + c.workers - 1
  {
    var s := After(c, Start(c), acts);
    StartInv(c);
    RunInv(c, Start(c), acts);
    NothingOwed(c.workers);
    RunAccounted(c, Start(c), acts);
    UncountedInFlight(s.phases);
  }

  function Ticks(n: nat): seq<Action> { seq(n, _ => Tick) }

  /** A window lasts its configured length from the moment it is seeded. */
  lemma {:induction false} WindowLasts(c: Config, s: State, w: nat, n: nat)
    requires ValidConfig(c) && !Alive(s) && Enabled(s, Seed(w))
    ensures var t := Next(c, s, Seed(w));
            && Runs(c, t, Ticks(n)) && After(c, t, Ticks(n)).now == s.now + n
            && (Alive(After(c, t, Ticks(n))) <==> n < c.window)
  {
    TicksPass(c, Next(c, s, Seed(w)), n);
  }

  lemma {:induction false} TicksPass(c: Config, s: State, n: nat)
    ensures Runs(c, s, Ticks(n)) && After(c, s, Ticks(n)) == s.(now := s.now + n)
    decreases n
  {
    if n > 0 {
      assert Ticks(n)[1..] == Ticks(n - 1);
      TicksPass(c, Next(c, s, Tick), n - 1);
    }
  }

  // ----- the bound is reached -----

  /** Worker `w` as far as its check, or from there to its increment. */
  function Enter(w: nat): seq<Action> { [Check(w)] }

  function Leave(w: nat): seq<Action> { [DoWork(w), Seed(w), Increment(w)] }

  lemma {:induction false} RunsAppend(c: Config, s: State, xs: seq<Action>, ys: seq<Action>)
    requires Runs(c, s, xs) && Runs(c, After(c, s, xs), ys)
    ensures Runs(c, s, xs + ys) && After(c, s, xs + ys) == After(c, After(c, s, xs), ys)
    decreases |xs|
  {
    if xs == [] {
      assert xs + ys == ys;
    } else {
      RunsAppend(c, Next(c, s, xs[0]), xs[1..], ys);
      assert (xs + ys)[0] == xs[0] && (xs + ys)[1..] == xs[1..] + ys;
    }
  }

  /** A live or fresh counter with room, everybody idle except the workers below `k`, who have passed. */
  ghost predicate Staged(c: Config, s: State, v: nat, k: nat) {
    && |s.phases| == c.workers && k <= c.workers
    && Reading(s) == v && (v > 0 ==> Alive(s)) && s.instance == (if Alive(s) then 1 else 0)
    && (Alive(s) ==> s.instance in s.recorded && s.recorded[s.instance] == s.value)
    && forall w | 0 <= w < c.workers :: s.phases[w] == if w < k then Passed else Idle
  }

  lemma LeaveCounts(c: Config, s: State, w: nat)
    requires ValidConfig(c) && w < |s.phases| && s.phases[w] == Passed
    requires Alive(s) ==> s.instance in s.recorded && s.recorded[s.instance] == s.value
    ensures Runs(c, s, Leave(w))
    ensures var t := After(c, s, Leave(w));
            && Alive(t) && Reading(t) == Reading(s) + 1 && t.instance in t.recorded && t.recorded[t.instance] == t.value
            && t.phases == s.phases[w := Idle] && t.instance == (if Alive(s) then s.instance else s.instance + 1)
  {
    var s1 := Next(c, s, DoWork(w));
    var s2 := Next(c, s1, Seed(w));
    var s3 := Next(c, s2, Increment(w));
    assert s3.phases == s.phases[w := Idle];
    var l := Leave(w);
    assert l[1..] == [Seed(w), Increment(w)] && l[1..][1..] == [Increment(w)] && l[1..][1..][1..] == [];
    assert Runs(c, s3, []) && After(c, s3, []) == s3;
    assert Runs(c, s2, [Increment(w)]) && After(c, s2, [Increment(w)]) == s3;
    assert Runs(c, s1, [Seed(w), Increment(w)]) && After(c, s1, [Seed(w), Increment(w)]) == s3;
  }

  /** One request after another, up to one below the threshold. */
  lemma {:induction false} FillUp(c: Config, v: nat) returns (acts: seq<Action>)
    requires ValidConfig(c) && v < c.threshold
    ensures Runs(c, Start(c), acts) && Staged(c, After(c, Start(c), acts), v, 0)
  {
    if v == 0 {
      acts := [];
    } else {
      var before := FillUp(c, v - 1);
      var s := After(c, Start(c), before);
      var s1 := Next(c, s, Check(0));
      assert Runs(c, s1, []) && [Check(0)][1..] == [];
      assert Runs(c, s, Enter(0)) && After(c, s, Enter(0)) == s1;
      LeaveCounts(c, s1, 0);
      RunsAppend(c, s, Enter(0), Leave(0));
      RunsAppend(c, Start(c), before, Enter(0) + Leave(0));
      acts := before + (Enter(0) + Leave(0));
    }
  }

  /** Then `k` requests pass their checks before any of them counts. */
  lemma {:induction false} Crowd(c: Config, k: nat) returns (acts: seq<Action>)
    requires ValidConfig(c) && k <= c.workers
    ensures Runs(c, Start(c), acts) && Staged(c, After(c, Start(c), acts), c.threshold - 1, k)
    decreases k
  {
    if k == 0 {
      acts := FillUp(c, c.threshold - 1);
    } else {
      var before := Crowd(c, k - 1);
      var s := After(c, Start(c), before);
      var s1 := Next(c, s, Check(k - 1));
      assert [Check(k - 1)][1..] == [] && Runs(c, s1, []);
      assert Runs(c, s, Enter(k - 1)) && After(c, s, Enter(k - 1)) == s1;
      RunsAppend(c, Start(c), before, Enter(k - 1));
      acts := before + Enter(k - 1);
    }
  }

  /** And then they all count. */
  lemma {:induction false} Drain(c: Config, s: State, v: nat, k: nat) returns (acts: seq<Action>)
    requires ValidConfig(c) && Staged(c, s, v, k) && k > 0
    ensures Runs(c, s, acts)
    ensures Staged(c, After(c, s, acts), v + k, 0)
    decreases k
  {
    LeaveCounts(c, s, k - 1);
    var t := After(c, s, Leave(k - 1));
    if k == 1 {
      acts := Leave(0);
    } else {
      assert Staged(c, t, v + 1, k - 1);
      var rest := Drain(c, t, v + 1, k - 1);
      RunsAppend(c, s, Leave(k - 1), rest);
      acts := Leave(k - 1) + rest;
    }
  }

  /** For every threshold and every number of workers some interleaving does threshold + workers - 1 units of
      work within the first window, and records as many: one threshold per window needs atomic requests. */
  lemma BoundReached(c: Config) returns (acts: seq<Action>, instance: nat)
    requires ValidConfig(c)
    ensures Runs(c, Start(c), acts) && instance in After(c, Start(c), acts).recorded
    ensures After(c, Start(c), acts).recorded[instance] == c.threshold + c.workers - 1
    ensures FirstWindow(After(c, Start(c), acts)) && After(c, Start(c), acts).worked == c.threshold + c.workers - 1
  {
    var crowd := Crowd(c, c.workers);
    var s := After(c, Start(c), crowd);
    var drain := Drain(c, s, c.threshold - 1, c.workers);
    RunsAppend(c, Start(c), crowd, drain);
    acts := crowd + drain;
    var t := After(c, Start(c), acts);
    instance := t.instance;
    NothingOwed(c.workers);
    RunAccounted(c, Start(c), acts);
    UncountedInFlight(t.phases);
  }
}
