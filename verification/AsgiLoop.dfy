/** The lazily started event loop shared by every request of a worker process.

    `Machine` is the state the threads of `_get_asgi_loop` share; each thread moves through the phases
    of the double-checked initialisation one atomic step at a time, in any order of threads. Loops are
    numbered in the order they are created. Any created loop may signal that it runs at any moment, and
    a wait may time out at any moment, signalled or not. */
module AsgiLoop {
  import opened Prelude

  type Loop = nat
  type Thread = nat

  datatype Phase =
    | Idle
    | FastRead
    | WantLock
    | Locked
    | Empty
    | Awaiting(loop: Loop)
    | Started(loop: Loop)
    | Raising
    | Leaving(loop: Loop)
    | Returning(loop: Loop)

  datatype Machine = Machine(
    phases: map<Thread, Phase>,
    lock: Option<Thread>,
    holder: Option<Loop>,
    signalled: seq<bool>,
    timedOut: set<Loop>,
    published: seq<Loop>,
    returned: seq<Loop>)

  datatype Step =
    | Call(t: Thread)
    | Read(t: Thread)
    | Acquire(t: Thread)
    | ReRead(t: Thread)
    | Create(t: Thread)
    | Signal(loop: Loop)
    | WaitOk(t: Thread)
    | TimeOut(t: Thread)
    | Publish(t: Thread)
    | Release(t: Thread)
    | Return(t: Thread)

  function At(m: Machine, t: Thread): Phase { if t in m.phases then m.phases[t] else Idle }

  function Go(m: Machine, t: Thread, p: Phase): Machine { m.(phases := m.phases[t := p]) }

  predicate Enabled(m: Machine, s: Step) {
    match s
    case Call(t) => At(m, t).Idle?
    case Read(t) => At(m, t).FastRead?
    case Acquire(t) => At(m, t).WantLock? && m.lock.None?
    case ReRead(t) => At(m, t).Locked?
    case Create(t) => At(m, t).Empty?
    case Signal(l) => l < |m.signalled|
    case WaitOk(t) => At(m, t).Awaiting? && At(m, t).loop < |m.signalled| && m.signalled[At(m, t).loop]
    case TimeOut(t) => At(m, t).Awaiting?
    case Publish(t) => At(m, t).Started?
    case Release(t) => At(m, t).Leaving? || At(m, t).Raising?
    case Return(t) => At(m, t).Returning?
  }

  /** The step's effect; a step that is not enabled does nothing. */
  function Next(m: Machine, s: Step): Machine {
    if !Enabled(m, s) then m
    else
      match s
      case Call(t) => Go(m, t, FastRead)
      case Read(t) => Go(m, t, if m.holder.Some? then Returning(m.holder.value) else WantLock)
      case Acquire(t) => Go(m, t, Locked).(lock := Some(t))
      case ReRead(t) => Go(m, t, if m.holder.Some? then Leaving(m.holder.value) else Empty)
      case Create(t) => Go(m, t, Awaiting(|m.signalled|)).(signalled := m.signalled + [false])
      case Signal(l) => m.(signalled := m.signalled[l := true])
      case WaitOk(t) => Go(m, t, Started(At(m, t).loop))
      case TimeOut(t) => Go(m, t, Raising).(timedOut := m.timedOut + {At(m, t).loop})
      case Publish(t) =>
        Go(m, t, Leaving(At(m, t).loop)).(holder := Some(At(m, t).loop), published := m.published + [At(m, t).loop])
      case Release(t) => Go(m, t, if At(m, t).Leaving? then Returning(At(m, t).loop) else Idle).(lock := None)
      case Return(t) => Go(m, t, Idle).(returned := m.returned + [At(m, t).loop])
  }

  function Run(m: Machine, steps: seq<Step>): Machine
    decreases |steps|
  {
    if steps == [] then m else Run(Next(m, steps[0]), steps[1..])
  }

  const FRESH := Machine(map[], None, None, [], {}, [], [])

  /** The phases inside the `with` block. */
  predicate Inside(p: Phase) { p.Locked? || p.Empty? || p.Awaiting? || p.Started? || p.Raising? || p.Leaving? }

  /** A loop that signalled and was not given up on. */
  predicate Usable(m: Machine, l: Loop) { l < |m.signalled| && m.signalled[l] && l !in m.timedOut }

  /** What each phase of a thread says about the shared state. */
  predicate PhaseOk(m: Machine, t: Thread, p: Phase) {
    && (Inside(p) <==> m.lock == Some(t))
    && (p.Empty? || p.Awaiting? || p.Started? ==> m.holder.None?)
    && (p.Awaiting? ==> p.loop < |m.signalled| && p.loop !in m.timedOut)
    && (p.Started? ==> Usable(m, p.loop))
    && (p.Leaving? || p.Returning? ==> m.holder == Some(p.loop))
  }

  /** The loop being started by the thread inside the lock, if one is. */
  function Starting(m: Machine): set<Loop> {
    if m.lock.Some? && (At(m, m.lock.value).Awaiting? || At(m, m.lock.value).Started?) then {At(m, m.lock.value).loop} else {}
  }

  ghost predicate Inv(m: Machine) {
    && (forall t: Thread :: PhaseOk(m, t, At(m, t)))
    && (m.holder.None? ==> m.published == [])
    && (m.holder.Some? ==> m.published == [m.holder.value] && Usable(m, m.holder.value))
    && (forall i | 0 <= i < |m.returned| :: m.holder == Some(m.returned[i]))
    && (forall l: Loop :: l < |m.signalled| <==> l in m.timedOut || l in m.published || l in Starting(m))
  }

  lemma FreshInv()
    ensures Inv(FRESH)
  {
  }

  lemma NextKeepsPhases(m: Machine, s: Step, t: Thread)
    requires Inv(m)
    ensures PhaseOk(Next(m, s), t, At(Next(m, s), t))
  {
    assert PhaseOk(m, t, At(m, t));
    if Enabled(m, s) && !s.Signal? {
      assert PhaseOk(m, s.t, At(m, s.t));
      hide Inv;
    }
  }

  /** Every loop ever created was timed out on, is the published one, or is being started. */
  lemma NextKeepsAccount(m: Machine, s: Step, l: Loop)
    requires Inv(m)
    ensures var n := Next(m, s); l < |n.signalled| <==> l in n.timedOut || l in n.published || l in Starting(n)
  {
    if Enabled(m, s) && !s.Signal? { assert PhaseOk(m, s.t, At(m, s.t)); }
    if m.lock.Some? { assert PhaseOk(m, m.lock.value, At(m, m.lock.value)); }
  }

  lemma NextKeepsInv(m: Machine, s: Step)
    requires Inv(m)
    ensures Inv(Next(m, s))
    ensures m.holder.Some? ==> Next(m, s).holder == m.holder && |Next(m, s).signalled| == |m.signalled|
    ensures |m.returned| <= |Next(m, s).returned| && m.timedOut <= Next(m, s).timedOut
  {
    var n := Next(m, s);
    forall t: Thread ensures PhaseOk(n, t, At(n, t)) { NextKeepsPhases(m, s, t); }
    forall l: Loop ensures l < |n.signalled| <==> l in n.timedOut || l in n.published || l in Starting(n) { NextKeepsAccount(m, s, l); }
    if Enabled(m, s) && !s.Signal? { assert PhaseOk(m, s.t, At(m, s.t)); }
  }

  lemma {:induction false} RunKeepsInv(m: Machine, steps: seq<Step>)
    requires Inv(m)
    ensures Inv(Run(m, steps))
    ensures m.holder.Some? ==> Run(m, steps).holder == m.holder && |Run(m, steps).signalled| == |m.signalled|
    ensures m.timedOut <= Run(m, steps).timedOut
    decreases |steps|
  {
    if steps != [] {
      NextKeepsInv(m, steps[0]);
      RunKeepsInv(Next(m, steps[0]), steps[1..]);
    }
  }

  lemma {:induction false} RunAppend(m: Machine, a: seq<Step>, b: seq<Step>)
    ensures Run(m, a + b) == Run(Run(m, a), b)
    decreases |a|
  {
    if a == [] {
      assert a + b == b;
    } else {
      assert (a + b)[1..] == a[1..] + b;
      RunAppend(Next(m, a[0]), a[1..], b);
    }
  }

  /** Whatever the threads do: at most one loop is ever published; it had signalled and was not timed out
      on; every call that returned got that loop; a loop that was timed out on is never returned. */
  lemma SinglePublishedLoop(steps: seq<Step>)
    ensures var m := Run(FRESH, steps);
            && |m.published| <= 1
            && (forall i | 0 <= i < |m.published| :: m.published[i] < |m.signalled| && m.signalled[m.published[i]] && m.published[i] !in m.timedOut)
            && (forall i, j | 0 <= i < |m.returned| && 0 <= j < |m.returned| :: m.returned[i] == m.returned[j])
            && (forall i | 0 <= i < |m.returned| :: m.published == [m.returned[i]] && m.returned[i] !in m.timedOut)
  {
    FreshInv();
    RunKeepsInv(FRESH, steps);
  }

  /** Once published the loop is published for good: no later run changes it, starts another, or times
      out on it. */
  lemma PublishedForGood(steps: seq<Step>, more: seq<Step>)
    requires Run(FRESH, steps).holder.Some?
    ensures var before, after := Run(FRESH, steps), Run(FRESH, steps + more);
            && after.holder == before.holder && after.published == before.published
            && |after.signalled| == |before.signalled|
            && after.holder.value !in after.timedOut
  {
    FreshInv();
    RunKeepsInv(FRESH, steps);
    RunAppend(FRESH, steps, more);
    RunKeepsInv(Run(FRESH, steps), more);
  }

  /** The first `n` loops. */
  function Upto(n: nat): (s: set<Loop>)
    ensures |s| == n && forall l: Loop :: l in s <==> l < n
  {
    if n == 0 then {} else Upto(n - 1) + {n - 1}
  }

  /** Loop threads leak only by timing out: at any moment the loops created exceed the timeouts by at
      most one. */
  lemma LeaksAreTimeouts(steps: seq<Step>)
    ensures var m := Run(FRESH, steps); |m.timedOut| <= |m.signalled| <= |m.timedOut| + 1
  {
    var m := Run(FRESH, steps);
    FreshInv();
    RunKeepsInv(FRESH, steps);
    if m.lock.Some? { assert PhaseOk(m, m.lock.value, At(m, m.lock.value)); }
    LiveAtMostOne(m);
  }

  lemma LiveAtMostOne(m: Machine)
    requires m.holder.Some? ==> Starting(m) == {} && m.published == [m.holder.value]
    requires m.holder.None? ==> m.published == []
    requires forall l: Loop :: l < |m.signalled| <==> l in m.timedOut || l in m.published || l in Starting(m)
    ensures |m.timedOut| <= |m.signalled| <= |m.timedOut| + 1
  {
    var live := if m.holder.Some? then {m.holder.value} else Starting(m);
    assert Upto(|m.signalled|) == m.timedOut + live;
    SizeOfUnion(m.timedOut, live);
  }

  lemma SizeOfUnion(a: set<Loop>, b: set<Loop>)
    ensures |a| <= |a + b| <= |a| + |b|
  {
    assert a + b == a + (b - a);
    assert |a + (b - a)| == |a| + |b - a|;
    assert b == (b - a) + (b * a);
    assert |b| == |b - a| + |b * a|;
  }

  const END: seq<Step> := []

  /** The rest of an undisturbed call that has just created loop `l`. */
  function Wait(t: Thread, l: Loop, starts: bool): seq<Step> {
    if starts then [Signal(l)] + ([WaitOk(t)] + ([Publish(t)] + ([Release(t)] + ([Return(t)] + END))))
    else [TimeOut(t)] + ([Release(t)] + END)
  }

  /** The steps of one undisturbed call. `starts` says whether a new loop signals within the wait. */
  function Solo(t: Thread, published: bool, next: Loop, starts: bool): seq<Step> {
    if published then [Call(t)] + ([Read(t)] + ([Return(t)] + END))
    else [Call(t)] + ([Read(t)] + ([Acquire(t)] + ([ReRead(t)] + ([Create(t)] + Wait(t, next, starts)))))
  }

  /** The module state as one thread sees it when no other is inside. */
  class LoopHolder {
    var holder: Option<Loop>
    var loops: seq<bool>
    var abandoned: set<Loop>

    constructor ()
      ensures holder.None? && loops == [] && abandoned == {}
    {
      holder, loops, abandoned := None, [], {};
    }

    /** No thread is inside the lock, and the machine's shared state is this one. */
    ghost predicate Shows(m: Machine)
      reads this
    {
      Inv(m) && m.lock.None? && m.holder == holder && m.signalled == loops && m.timedOut == abandoned
    }

    /** Return the shared loop, starting it if there is none; an error when the start times out. The
        effect is that of a run of the threads' machine by the calling thread alone. */
    method GetAsgiLoop(starts: bool, ghost m: Machine, ghost t: Thread) returns (r: Result<Loop, string>)
      requires Shows(m) && At(m, t).Idle?
      modifies this
      ensures Shows(Run(m, Solo(t, old(holder).Some?, |old(loops)|, starts)))
      ensures Run(m, Solo(t, old(holder).Some?, |old(loops)|, starts)).returned == m.returned + if r.Ok? then [r.value] else []
      ensures r.Ok? <==> old(holder).Some? || starts
    {
      Undisturbed(m, t, starts);
      var loop := holder;
      if loop.None? {
        loop := Some(|loops|);
        loops := loops + [starts];
        if !starts {
          abandoned := abandoned + {|loops| - 1};
          return Failed("event loop did not start");
        }
        holder := loop;
      }
      return Ok(loop.value);
    }
  }

  lemma First(m: Machine, s: Step, rest: seq<Step>)
    ensures Run(m, [s] + rest) == Run(Next(m, s), rest)
  {
    assert ([s] + rest)[1..] == rest;
  }

  lemma GoTwice(m: Machine, t: Thread, p: Phase, q: Phase)
    ensures Go(Go(m, t, p), t, q) == Go(m, t, q)
  {
    assert m.phases[t := p][t := q] == m.phases[t := q];
  }

  /** One step of `t` alone, the shared part changing from `m` to `n`. */
  lemma Onward(m: Machine, t: Thread, p: Phase, s: Step, n: Machine, q: Phase, rest: seq<Step>)
    requires Next(Go(m, t, p), s) == Go(Go(n, t, p), t, q)
    ensures Run(Go(m, t, p), [s] + rest) == Run(Go(n, t, q), rest)
  {
    First(Go(m, t, p), s, rest);
    GoTwice(n, t, p, q);
  }

  lemma ReturnStep(m: Machine, t: Thread, l: Loop, rest: seq<Step>)
    ensures Run(Go(m, t, Returning(l)), [Return(t)] + rest) == Run(Go(m.(returned := m.returned + [l]), t, Idle), rest)
  {
    hide Run;
    Onward(m, t, Returning(l), Return(t), m.(returned := m.returned + [l]), Idle, rest);
  }

  lemma ReadStep(m: Machine, t: Thread, rest: seq<Step>)
    requires m.holder.Some?
    ensures Run(Go(m, t, FastRead), [Read(t)] + rest) == Run(Go(m, t, Returning(m.holder.value)), rest)
  {
    hide Run;
    Onward(m, t, FastRead, Read(t), m, Returning(m.holder.value), rest);
  }

  lemma SoloFast(m: Machine, t: Thread)
    requires At(m, t).Idle? && m.holder.Some?
    ensures Run(m, [Call(t)] + ([Read(t)] + ([Return(t)] + END))) == Go(m, t, Idle).(returned := m.returned + [m.holder.value])
  {
    hide Run;
    var l := m.holder.value;
    var out := m.(returned := m.returned + [l]);
    var r1 := [Return(t)] + END;
    First(m, Call(t), [Read(t)] + r1);
    ReadStep(m, t, r1);
    ReturnStep(m, t, l, END);
    Stop(Go(out, t, Idle));
  }

  /** Up to waiting for the new loop. */
  lemma SoloCreate(m: Machine, t: Thread, rest: seq<Step>)
    requires At(m, t).Idle? && m.lock.None? && m.holder.None?
    ensures Run(m, [Call(t)] + ([Read(t)] + ([Acquire(t)] + ([ReRead(t)] + ([Create(t)] + rest))))) ==
            Run(Go(m.(lock := Some(t), signalled := m.signalled + [false]), t, Awaiting(|m.signalled|)), rest)
  {
    hide Run;
    var held := m.(lock := Some(t));
    var r1 := [Create(t)] + rest;
    var r2 := [ReRead(t)] + r1;
    var r3 := [Acquire(t)] + r2;
    First(m, Call(t), [Read(t)] + r3);
    Onward(m, t, FastRead, Read(t), m, WantLock, r3);
    Onward(m, t, WantLock, Acquire(t), held, Locked, r2);
    Onward(held, t, Locked, ReRead(t), held, Empty, r1);
    Onward(held, t, Empty, Create(t), held.(signalled := m.signalled + [false]), Awaiting(|m.signalled|), rest);
  }

  lemma SoloTimesOut(m: Machine, t: Thread, l: Loop)
    ensures Run(Go(m, t, Awaiting(l)), Wait(t, l, false)) == Go(m.(timedOut := m.timedOut + {l}, lock := None), t, Idle)
  {
    hide Run;
    var n := m.(timedOut := m.timedOut + {l});
    Onward(m, t, Awaiting(l), TimeOut(t), n, Raising, [Release(t)] + END);
    Onward(n, t, Raising, Release(t), n.(lock := None), Idle, END);
    Stop(Go(n.(lock := None), t, Idle));
  }

  lemma Stop(m: Machine)
    ensures Run(m, END) == m
  {
  }

  lemma SoloStarts(m: Machine, t: Thread, l: Loop)
    requires l < |m.signalled|
    ensures Run(Go(m, t, Awaiting(l)), Wait(t, l, true)) ==
            Go(m.(signalled := m.signalled[l := true], holder := Some(l), published := m.published + [l], lock := None,
                  returned := m.returned + [l]), t, Idle)
  {
    hide Run;
    var up := m.(signalled := m.signalled[l := true]);
    var out := up.(holder := Some(l), published := m.published + [l]);
    var free := out.(lock := None);
    var r1 := [Return(t)] + END;
    var r2 := [Release(t)] + r1;
    var r3 := [Publish(t)] + r2;
    var r4 := [WaitOk(t)] + r3;
    First(Go(m, t, Awaiting(l)), Signal(l), r4);
    Onward(up, t, Awaiting(l), WaitOk(t), up, Started(l), r3);
    Onward(up, t, Started(l), Publish(t), out, Leaving(l), r2);
    Onward(out, t, Leaving(l), Release(t), free, Returning(l), r1);
    ReturnStep(free, t, l, END);
    Stop(Go(free.(returned := m.returned + [l]), t, Idle));
  }

  /** A call no other thread disturbs, in the machine. */
  lemma Undisturbed(m: Machine, t: Thread, starts: bool)
    requires Inv(m) && At(m, t).Idle? && m.lock.None?
    ensures var n, l := Run(m, Solo(t, m.holder.Some?, |m.signalled|, starts)), |m.signalled|;
            && Inv(n)
            && n == if m.holder.Some? then Go(m, t, Idle).(returned := m.returned + [m.holder.value])
                    else if starts then Go(m, t, Idle).(signalled := m.signalled + [true], holder := Some(l),
                                                        published := m.published + [l], returned := m.returned + [l])
                    else Go(m, t, Idle).(signalled := m.signalled + [false], timedOut := m.timedOut + {l})
  {
    var steps, l := Solo(t, m.holder.Some?, |m.signalled|, starts), |m.signalled|;
    RunKeepsInv(m, steps);
    hide Run, Next, Inv;
    if m.holder.Some? {
      SoloFast(m, t);
    } else {
      SoloCreate(m, t, Wait(t, l, starts));
      var made := m.(lock := Some(t), signalled := m.signalled + [false]);
      assert made.signalled[l := true] == m.signalled + [true];
      if starts { SoloStarts(made, t, l); } else { SoloTimesOut(made, t, l); }
    }
  }
}
