/** The per-address fixed-window throttle, as `/o/register` and the bearer check drive it.

    `Site` is the whole state: clock, cache, the work done (a registration created, a token lookup that
    failed) with its time, and the warnings emitted. Requests are atomic here; ThrottleRace interleaves
    them. */
module Throttle {
  import opened Prelude
  import opened CacheKeys

  const REGISTER: string := "register"
  const BAD_TOKEN: string := "bad_token"

  datatype Counter = Counter(value: nat, expires: nat)

  datatype Config = Config(threshold: nat, window: nat)

  predicate ValidConfig(c: Config) { c.threshold > 0 && c.window > 0 }

  datatype Work = Work(scope: string, ip: string, at: nat)

  datatype Site = Site(now: nat, cache: map<string, Counter>, done: seq<Work>, warnings: seq<string>)

  function Fresh(): Site { Site(0, map[], [], []) }

  /** The counter as the cache serves it: an expired key reads as absent. */
  function Read(s: Site, key: string): nat {
    if key in s.cache && s.now < s.cache[key].expires then s.cache[key].value else 0
  }

  predicate Blocked(c: Config, s: Site, scope: string, ip: string) { Read(s, IpKey(scope, ip)) >= c.threshold }

  /** Seed with the window's lifetime unless live, then increment; warn at the crossing. */
  function Recorded(c: Config, s: Site, scope: string, ip: string): Site {
    var key := IpKey(scope, ip);
    var count := Read(s, key) + 1;
    var expires := if key in s.cache && s.now < s.cache[key].expires then s.cache[key].expires else s.now + c.window;
    Site(s.now, s.cache[key := Counter(count, expires)], s.done, if count == c.threshold then s.warnings + [key] else s.warnings)
  }

  datatype Event =
    | Wait(seconds: nat)
    | Register(ip: string)
    | Bearer(ip: string, hasHeader: bool, valid: bool)

  /** One request that does throttled work: check, work, record. */
  function Attempted(c: Config, s: Site, scope: string, ip: string): Site {
    if Blocked(c, s, scope, ip) then s
    else Recorded(c, Site(s.now, s.cache, s.done + [Work(scope, ip, s.now)], s.warnings), scope, ip)
  }

  function Step(c: Config, s: Site, e: Event): Site {
    match e
    case Wait(seconds) => Site(s.now + seconds, s.cache, s.done, s.warnings)
    case Register(ip) => Attempted(c, s, REGISTER, ip)
    case Bearer(ip, hasHeader, valid) => if hasHeader && !valid then Attempted(c, s, BAD_TOKEN, ip) else s
  }

  function Run(c: Config, es: seq<Event>): Site {
    if es == [] then Fresh() else Step(c, Run(c, es[..|es| - 1]), es[|es| - 1])
  }

  /** The work done for one scope and address from `t0` on and before `t1`. */
  function DoneWithin(done: seq<Work>, scope: string, ip: string, t0: nat, t1: nat): nat {
    if done == [] then 0
    else
      var w := done[|done| - 1];
      DoneWithin(done[..|done| - 1], scope, ip, t0, t1) + if w.scope == scope && w.ip == ip && t0 <= w.at < t1 then 1 else 0
  }

  lemma DoneSnoc(done: seq<Work>, w: Work, scope: string, ip: string, t0: nat, t1: nat)
    ensures DoneWithin(done + [w], scope, ip, t0, t1)
         == DoneWithin(done, scope, ip, t0, t1) + if w.scope == scope && w.ip == ip && t0 <= w.at < t1 then 1 else 0
  {
    assert (done + [w])[..|done|] == done;
  }

  // ----- what a request leaves alone -----

  predicate Refused(c: Config, s: Site, e: Event) {
    match e
    case Wait(_) => false
    case Register(ip) => Blocked(c, s, REGISTER, ip)
    case Bearer(ip, hasHeader, _) => hasHeader && Blocked(c, s, BAD_TOKEN, ip)
  }

  function RunFrom(c: Config, s: Site, es: seq<Event>): Site
    decreases |es|
  {
    if es == [] then s else RunFrom(c, Step(c, s, es[0]), es[1..])
  }

  lemma {:induction false} RunFromSnoc(c: Config, s: Site, es: seq<Event>, e: Event)
    ensures RunFrom(c, s, es + [e]) == Step(c, RunFrom(c, s, es), e)
    decreases |es|
  {
    if es == [] {
      assert [e][1..] == [];
      assert es + [e] == [e];
    } else {
      assert (es + [e])[1..] == es[1..] + [e];
      RunFromSnoc(c, Step(c, s, es[0]), es[1..], e);
    }
  }

  lemma {:induction false} RunIsRunFrom(c: Config, es: seq<Event>)
    ensures Run(c, es) == RunFrom(c, Fresh(), es)
    decreases |es|
  {
    if es != [] {
      RunIsRunFrom(c, es[..|es| - 1]);
      RunFromSnoc(c, Fresh(), es[..|es| - 1], es[|es| - 1]);
      assert es == es[..|es| - 1] + [es[|es| - 1]];
    }
  }

  /** The requests of a run without the blocked ones. */
  function Served(c: Config, s: Site, es: seq<Event>): seq<Event>
    decreases |es|
  {
    if es == [] then []
    else (if Refused(c, s, es[0]) then [] else [es[0]]) + Served(c, Step(c, s, es[0]), es[1..])
  }

  /** Blocked requests leave no trace: a run ends in the same state, counters, windows, warnings and rows,
      as the same run without them. */
  lemma {:induction false} BlockedLeaveNoTrace(c: Config, s: Site, es: seq<Event>)
    ensures RunFrom(c, s, Served(c, s, es)) == RunFrom(c, s, es)
    decreases |es|
  {
    if es != [] {
      var t := Step(c, s, es[0]);
      BlockedLeaveNoTrace(c, t, es[1..]);
      if Refused(c, s, es[0]) {
        assert t == s;
        assert Served(c, s, es) == Served(c, t, es[1..]);
      } else {
        assert Served(c, s, es)[1..] == Served(c, t, es[1..]);
      }
    }
  }

  /** The event attempts throttled work of this scope and address: a registration, or a lookup of a
      presented token that fails. */
  predicate Tries(e: Event, scope: string, ip: string) {
    match e
    case Wait(_) => false
    case Register(ip1) => scope == "register" && ip1 == ip
    case Bearer(ip1, hasHeader, valid) => scope == "bad_token" && ip1 == ip && hasHeader && !valid
  }

  predicate Concerns(e: Event, scope: string, ip: string) { e.Wait? || Tries(e, scope, ip) }

  /** The clock and the attempts of one address in one scope. */
  function Own(es: seq<Event>, scope: string, ip: string): seq<Event> {
    if es == [] then []
    else Own(es[..|es| - 1], scope, ip) + if Concerns(es[|es| - 1], scope, ip) then [es[|es| - 1]] else []
  }

  /** Two sites agree on one address and scope. */
  ghost predicate Alike(s: Site, t: Site, scope: string, ip: string) {
    var key := IpKey(scope, ip);
    && s.now == t.now
    && (key in s.cache <==> key in t.cache) && (key in s.cache ==> s.cache[key] == t.cache[key])
    && forall from, to :: DoneWithin(s.done, scope, ip, from, to) == DoneWithin(t.done, scope, ip, from, to)
  }

  /** An address's counter, block and work depend only on the clock and its own attempts in that scope:
      dropping every other request from a run changes none of them. */
  lemma {:induction false} OwnRequestsDecide(c: Config, es: seq<Event>, scope: string, ip: string)
    requires Colonless(scope)
    ensures Alike(Run(c, es), Run(c, Own(es, scope, ip)), scope, ip)
    ensures Blocked(c, Run(c, es), scope, ip) == Blocked(c, Run(c, Own(es, scope, ip)), scope, ip)
    decreases |es|
  {
    if es != [] {
      var some, e := es[..|es| - 1], es[|es| - 1];
      OwnRequestsDecide(c, some, scope, ip);
      var s, t := Run(c, some), Run(c, Own(some, scope, ip));
      if Concerns(e, scope, ip) {
        assert Own(es, scope, ip)[..|Own(some, scope, ip)|] == Own(some, scope, ip);
        OwnStepAlike(c, s, t, e, scope, ip);
      } else {
        assert Own(es, scope, ip) == Own(some, scope, ip);
        OtherStepAlike(c, s, e, scope, ip);
      }
    }
  }

  lemma OwnStepAlike(c: Config, s: Site, t: Site, e: Event, scope: string, ip: string)
    requires Alike(s, t, scope, ip) && Concerns(e, scope, ip)
    ensures Alike(Step(c, s, e), Step(c, t, e), scope, ip)
  {
    if !e.Wait? {
      var w := Work(scope, ip, s.now);
      forall from, to
        ensures DoneWithin(s.done + [w], scope, ip, from, to) == DoneWithin(t.done + [w], scope, ip, from, to)
      {
        DoneSnoc(s.done, w, scope, ip, from, to);
        DoneSnoc(t.done, w, scope, ip, from, to);
      }
    }
  }

  lemma OtherStepAlike(c: Config, s: Site, e: Event, scope: string, ip: string)
    requires Colonless(scope) && !Concerns(e, scope, ip)
    ensures Alike(Step(c, s, e), s, scope, ip)
  {
    var other := if e.Register? then REGISTER else BAD_TOKEN;
    assert Colonless(other);
    IpKeyInjective(scope, ip, other, e.ip);
    if Tries(e, other, e.ip) {
      var w := Work(other, e.ip, s.now);
      forall from, to ensures DoneWithin(s.done + [w], scope, ip, from, to) == DoneWithin(s.done, scope, ip, from, to) {
        DoneSnoc(s.done, w, scope, ip, from, to);
      }
    }
  }

  // ----- what counts as an attempt -----

  function Attempts(es: seq<Event>, scope: string, ip: string): nat {
    if es == [] then 0 else Attempts(es[..|es| - 1], scope, ip) + if Tries(es[|es| - 1], scope, ip) then 1 else 0
  }

  function Seconds(e: Event): nat { if e.Wait? then e.seconds else 0 }

  function Elapsed(es: seq<Event>): nat { if es == [] then 0 else Elapsed(es[..|es| - 1]) + Seconds(es[|es| - 1]) }

  /** The events that can change anything at all: bearer requests without a header or with a good token
      are left out. */
  function Relevant(es: seq<Event>): seq<Event> {
    if es == [] then []
    else (if es[0].Bearer? && (!es[0].hasHeader || es[0].valid) then [] else [es[0]]) + Relevant(es[1..])
  }

  /** Good tokens and requests without one leave no trace: a run ends in the same state without them. */
  lemma {:induction false} GoodTokensLeaveNoTrace(c: Config, s: Site, es: seq<Event>)
    ensures RunFrom(c, s, Relevant(es)) == RunFrom(c, s, es)
    decreases |es|
  {
    if es != [] {
      GoodTokensLeaveNoTrace(c, Step(c, s, es[0]), es[1..]);
      if es[0].Bearer? && (!es[0].hasHeader || es[0].valid) {
        assert Relevant(es) == Relevant(es[1..]);
      } else {
        assert Relevant(es)[1..] == Relevant(es[1..]);
      }
    }
  }

  /** An address that attempted nothing in a scope is not counted there, so never blocked. */
  lemma {:induction false} NoAttemptNoCount(c: Config, es: seq<Event>, scope: string, ip: string)
    requires Colonless(scope) && Attempts(es, scope, ip) == 0
    ensures IpKey(scope, ip) !in Run(c, es).cache && Read(Run(c, es), IpKey(scope, ip)) == 0
    ensures c.threshold > 0 ==> !Blocked(c, Run(c, es), scope, ip)
  {
    if es != [] {
      NoAttemptNoCount(c, es[..|es| - 1], scope, ip);
      IdleStep(c, Run(c, es[..|es| - 1]), es[|es| - 1], scope, ip);
    }
  }

  /** The counter of a scope and address is absent or out of its window. */
  predicate Clear(s: Site, scope: string, ip: string) {
    IpKey(scope, ip) !in s.cache || s.cache[IpKey(scope, ip)].expires <= s.now
  }

  /** A step that is no attempt of the address in the scope changes neither its counter nor its work nor
      its warnings. */
  lemma IdleStep(c: Config, s: Site, e: Event, scope: string, ip: string)
    requires Colonless(scope) && !Tries(e, scope, ip)
    ensures var t, key := Step(c, s, e), IpKey(scope, ip);
            && t.now == s.now + Seconds(e)
            && (key in t.cache <==> key in s.cache) && (key in t.cache ==> t.cache[key] == s.cache[key])
            && multiset(t.warnings)[key] == multiset(s.warnings)[key]
            && |t.done| >= |s.done| && t.done[..|s.done|] == s.done
            && (forall i | |s.done| <= i < |t.done| :: t.done[i].scope != scope || t.done[i].ip != ip)
  {
    if !e.Wait? {
      var other := if e.Register? then REGISTER else BAD_TOKEN;
      assert Colonless(other);
      IpKeyInjective(scope, ip, other, e.ip);
      WarnSnoc(s.warnings, IpKey(other, e.ip), IpKey(scope, ip));
    }
  }

  lemma WarnSnoc(warnings: seq<string>, w: string, key: string)
    ensures multiset(warnings + [w])[key] == multiset(warnings)[key] + if w == key then 1 else 0
  {
    assert multiset(warnings + [w]) == multiset(warnings) + multiset{w};
  }

  lemma {:induction false} DoneOthers(done: seq<Work>, n: nat, scope: string, ip: string, t0: nat, t1: nat)
    requires n <= |done| && forall i | n <= i < |done| :: done[i].scope != scope || done[i].ip != ip
    ensures DoneWithin(done, scope, ip, t0, t1) == DoneWithin(done[..n], scope, ip, t0, t1)
  {
    if n < |done| {
      var front := done[..|done| - 1];
      DoneOthers(front, n, scope, ip, t0, t1);
      assert front[..n] == done[..n];
    } else {
      assert done[..n] == done;
    }
  }

  function DoneBy(s: Site, scope: string, ip: string, end: nat): nat { DoneWithin(s.done, scope, ip, 0, end) }

  /** Since `start`, when the counter was clear, `n` attempts were made within one window: the first
      `threshold` of them did their work and were counted, with one warning at the last of these. */
  ghost predicate Burst(c: Config, start: Site, t: Site, scope: string, ip: string, n: nat) {
    var key := IpKey(scope, ip);
    var m := Min(n, c.threshold);
    && (if n == 0 then key in t.cache ==> key in start.cache && t.cache[key] == start.cache[key]
        else key in t.cache && t.cache[key].value == m && start.now + c.window <= t.cache[key].expires <= t.now + c.window)
    && DoneBy(t, scope, ip, start.now + c.window) == DoneBy(start, scope, ip, start.now + c.window) + m
    && multiset(t.warnings)[key] == multiset(start.warnings)[key] + if n >= c.threshold then 1 else 0
  }

  /** Within one window exactly the first `threshold` attempts of an address in a scope get through, and the
      last of these raises the one warning. */
  lemma {:induction false} BurstExact(c: Config, s: Site, es: seq<Event>, scope: string, ip: string)
    requires ValidConfig(c) && Colonless(scope) && Clear(s, scope, ip) && Elapsed(es) < c.window
    ensures var t, n := RunFrom(c, s, es), Attempts(es, scope, ip);
            && t.now == s.now + Elapsed(es) && Burst(c, s, t, scope, ip, n)
            && Read(t, IpKey(scope, ip)) == Min(n, c.threshold)
            && (Blocked(c, t, scope, ip) <==> n >= c.threshold)
    decreases |es|
  {
    if es != [] {
      var some, e := es[..|es| - 1], es[|es| - 1];
      BurstExact(c, s, some, scope, ip);
      assert es == some + [e];
      RunFromSnoc(c, s, some, e);
      BurstStep(c, s, RunFrom(c, s, some), e, scope, ip, Attempts(some, scope, ip));
    }
  }

  lemma BurstStep(c: Config, start: Site, t: Site, e: Event, scope: string, ip: string, n: nat)
    requires ValidConfig(c) && Colonless(scope) && Clear(start, scope, ip) && start.now <= t.now
    requires Burst(c, start, t, scope, ip, n) && t.now + Seconds(e) < start.now + c.window
    ensures var next, m := Step(c, t, e), n + if Tries(e, scope, ip) then 1 else 0;
            && next.now == t.now + Seconds(e) && Burst(c, start, next, scope, ip, m)
            && Read(next, IpKey(scope, ip)) == Min(m, c.threshold)
  {
    if Tries(e, scope, ip) {
      assert Step(c, t, e) == Attempted(c, t, scope, ip);
      BurstTried(c, start, t, scope, ip, n);
    } else {
      BurstIdle(c, start, t, e, scope, ip, n);
    }
    hide Burst, IpKey, Step, Attempted;
  }

  lemma BurstIdle(c: Config, start: Site, t: Site, e: Event, scope: string, ip: string, n: nat)
    requires ValidConfig(c) && Colonless(scope) && Clear(start, scope, ip) && start.now <= t.now
    requires Burst(c, start, t, scope, ip, n) && t.now + Seconds(e) < start.now + c.window && !Tries(e, scope, ip)
    ensures var next := Step(c, t, e);
            && next.now == t.now + Seconds(e) && Burst(c, start, next, scope, ip, n)
            && Read(next, IpKey(scope, ip)) == Min(n, c.threshold)
  {
    var next := Step(c, t, e);
    IdleStep(c, t, e, scope, ip);
    DoneOthers(next.done, |t.done|, scope, ip, 0, start.now + c.window);
    hide DoneWithin, IpKey, Step, Tries;
  }

  lemma BurstTried(c: Config, start: Site, t: Site, scope: string, ip: string, n: nat)
    requires ValidConfig(c) && Clear(start, scope, ip) && start.now <= t.now < start.now + c.window
    requires Burst(c, start, t, scope, ip, n)
    ensures var next := Attempted(c, t, scope, ip);
            && next.now == t.now && Burst(c, start, next, scope, ip, n + 1)
            && Read(next, IpKey(scope, ip)) == Min(n + 1, c.threshold)
  {
    TriedStep(c, t, scope, ip, start.now + c.window);
    hide DoneBy, IpKey, Attempted;
  }

  lemma TriedStep(c: Config, t: Site, scope: string, ip: string, end: nat)
    requires ValidConfig(c) && t.now < end
    ensures var next, key, count := Attempted(c, t, scope, ip), IpKey(scope, ip), Read(t, IpKey(scope, ip)) + 1;
            if Read(t, key) >= c.threshold then next == t
            else
              && next.now == t.now && key in next.cache && next.cache[key].value == count
              && next.cache[key].expires == (if Clear(t, scope, ip) then t.now + c.window else t.cache[key].expires)
              && DoneBy(next, scope, ip, end) == DoneBy(t, scope, ip, end) + 1
              && multiset(next.warnings)[key] == multiset(t.warnings)[key] + if count == c.threshold then 1 else 0
  {
    DoneSnoc(t.done, Work(scope, ip, t.now), scope, ip, 0, end);
    WarnSnoc(t.warnings, IpKey(scope, ip), IpKey(scope, ip));
    hide IpKey, DoneWithin;
  }

  // ----- the bound over whole runs -----

  /** What is known of one address and scope: each work item falls in a window instance of at most
      `threshold` items, and instances start a window apart. `from` is any moment. */
  ghost predicate Paced(c: Config, s: Site, scope: string, ip: string, from: nat)
    requires c.window > 0
  {
    var key := IpKey(scope, ip);
    var n := DoneWithin(s.done, scope, ip, from, s.now + 1);
    if key !in s.cache then n == 0
    else
      var v := s.cache[key].value;
      && c.window <= s.cache[key].expires <= s.now + c.window
      && 1 <= v <= c.threshold
      && var started := s.cache[key].expires - c.window;
         if from > started then n <= v
         else n <= c.threshold * ((started - from) / c.window + 1) + v
  }

  lemma {:induction false} NothingLater(c: Config, s: Site, scope: string, ip: string, from: nat, t: nat, u: nat)
    requires forall i | 0 <= i < |s.done| :: s.done[i].at < t
    requires t <= u
    ensures DoneWithin(s.done, scope, ip, from, u) == DoneWithin(s.done, scope, ip, from, t)
    decreases |s.done|
  {
    if s.done != [] {
      NothingLater(c, Site(s.now, s.cache, s.done[..|s.done| - 1], s.warnings), scope, ip, from, t, u);
    }
  }

  ghost predicate InThePast(s: Site) { forall i | 0 <= i < |s.done| :: s.done[i].at <= s.now }

  lemma NextWindow(threshold: nat, window: nat, from: nat, started: nat, later: nat)
    requires window > 0 && from <= started && started + window <= later
    ensures threshold * ((started - from) / window + 2) <= threshold * ((later - from) / window + 1)
  {
    var a, b := started - from, later - from;
    DivStep(a, b, window);
    MulMono(threshold, a / window + 2, b / window + 1);
  }

  lemma MulMono(m: nat, a: nat, b: nat)
    requires a <= b
    ensures m * a <= m * b
  {
  }

  /** Division finds the one quotient whose multiple fits. */
  lemma DivAtLeast(n: nat, w: nat, q: nat)
    requires w > 0 && w * q <= n
    ensures q <= n / w
  {
    var k := n / w;
    assert w * (k + 1) == w * k + w > n;
    if k < q { MulMono(w, k + 1, q); }
  }

  lemma DivStep(a: nat, b: nat, w: nat)
    requires w > 0 && a + w <= b
    ensures a / w + 1 <= b / w
  {
    assert w * (a / w + 1) == w * (a / w) + w;
    DivAtLeast(b, w, a / w + 1);
  }

  /** The arithmetic of one more item: in a live window, in a new window, in the first. */
  lemma PaceInWindow(c: Config, from: nat, started: nat, now: nat, v: nat, n: nat)
    requires ValidConfig(c) && started <= now && v < c.threshold
    requires if from > started then n <= v else n <= c.threshold * ((started - from) / c.window + 1) + v
    ensures var m := n + if from <= now then 1 else 0;
            if from > started then m <= v + 1 else m <= c.threshold * ((started - from) / c.window + 1) + v + 1
  {
  }

  lemma PaceNewWindow(c: Config, from: nat, started: nat, now: nat, v: nat, n: nat)
    requires ValidConfig(c) && started + c.window <= now && v <= c.threshold
    requires if from > started then n <= v else n <= c.threshold * ((started - from) / c.window + 1) + v
    requires from > now ==> n == 0
    ensures var m := n + if from <= now then 1 else 0;
            if from > now then m <= 1 else m <= c.threshold * ((now - from) / c.window + 1) + 1
  {
    if from <= started {
      NextWindow(c.threshold, c.window, from, started, now);
      var q := (started - from) / c.window;
      assert c.threshold * (q + 2) == c.threshold * (q + 1) + c.threshold;
    } else if from <= now {
      MulMono(c.threshold, 1, (now - from) / c.window + 1);
    }
  }

  lemma {:induction false} NoneBefore(done: seq<Work>, scope: string, ip: string, t0: nat, t1: nat)
    requires t1 <= t0
    ensures DoneWithin(done, scope, ip, t0, t1) == 0
  {
    if done != [] { NoneBefore(done[..|done| - 1], scope, ip, t0, t1); }
  }

  lemma AttemptKeepsPace(c: Config, s: Site, scope: string, ip: string, from: nat)
    requires ValidConfig(c) && InThePast(s) && Paced(c, s, scope, ip, from)
    ensures Paced(c, Attempted(c, s, scope, ip), scope, ip, from) && InThePast(Attempted(c, s, scope, ip))
  {
    if !Blocked(c, s, scope, ip) {
      var key := IpKey(scope, ip);
      DoneSnoc(s.done, Work(scope, ip, s.now), scope, ip, from, s.now + 1);
      hide DoneWithin, IpKey;
      if key !in s.cache {
        FirstEver(c, s, scope, ip, from);
      } else if s.now < s.cache[key].expires {
        InWindow(c, s, scope, ip, from);
      } else {
        NewWindow(c, s, scope, ip, from);
      }
    }
  }

  /** How many items an admitted attempt leaves. */
  function Plus(c: Config, s: Site, scope: string, ip: string, from: nat): nat {
    DoneWithin(s.done, scope, ip, from, s.now + 1) + if from <= s.now then 1 else 0
  }

  lemma FirstEver(c: Config, s: Site, scope: string, ip: string, from: nat)
    requires ValidConfig(c) && Paced(c, s, scope, ip, from) && IpKey(scope, ip) !in s.cache
    ensures var m := Plus(c, s, scope, ip, from);
            if from > s.now then m <= 1 else m <= c.threshold * ((s.now - from) / c.window + 1) + 1
  {
    hide DoneWithin;
    if from <= s.now { MulMono(c.threshold, 0, (s.now - from) / c.window + 1); }
  }

  lemma InWindow(c: Config, s: Site, scope: string, ip: string, from: nat)
    requires ValidConfig(c) && Paced(c, s, scope, ip, from) && !Blocked(c, s, scope, ip)
    requires IpKey(scope, ip) in s.cache && s.now < s.cache[IpKey(scope, ip)].expires
    ensures var v, started := s.cache[IpKey(scope, ip)].value, s.cache[IpKey(scope, ip)].expires - c.window;
            var m := Plus(c, s, scope, ip, from);
            if from > started then m <= v + 1 else m <= c.threshold * ((started - from) / c.window + 1) + v + 1
  {
    var counter := s.cache[IpKey(scope, ip)];
    var n := DoneWithin(s.done, scope, ip, from, s.now + 1);
    hide DoneWithin, IpKey;
    PaceInWindow(c, from, counter.expires - c.window, s.now, counter.value, n);
  }

  lemma NewWindow(c: Config, s: Site, scope: string, ip: string, from: nat)
    requires ValidConfig(c) && Paced(c, s, scope, ip, from)
    requires IpKey(scope, ip) in s.cache && s.cache[IpKey(scope, ip)].expires <= s.now
    ensures var m := Plus(c, s, scope, ip, from);
            if from > s.now then m <= 1 else m <= c.threshold * ((s.now - from) / c.window + 1) + 1
  {
    var counter := s.cache[IpKey(scope, ip)];
    var n := DoneWithin(s.done, scope, ip, from, s.now + 1);
    if from > s.now { NoneBefore(s.done, scope, ip, from, s.now + 1); }
    hide DoneWithin, IpKey;
    PaceNewWindow(c, from, counter.expires - c.window, s.now, counter.value, n);
  }

  lemma OtherKeepsPace(c: Config, s: Site, scope: string, ip: string, scope1: string, ip1: string, from: nat)
    requires ValidConfig(c) && InThePast(s) && Paced(c, s, scope, ip, from)
    requires Colonless(scope) && Colonless(scope1) && (scope != scope1 || ip != ip1)
    ensures Paced(c, Attempted(c, s, scope1, ip1), scope, ip, from) && InThePast(Attempted(c, s, scope1, ip1))
  {
    IpKeyInjective(scope, ip, scope1, ip1);
    DoneSnoc(s.done, Work(scope1, ip1, s.now), scope, ip, from, s.now + 1);
  }

  lemma WaitKeepsPace(c: Config, s: Site, scope: string, ip: string, from: nat, seconds: nat)
    requires ValidConfig(c) && InThePast(s) && Paced(c, s, scope, ip, from)
    ensures var t := Site(s.now + seconds, s.cache, s.done, s.warnings);
            Paced(c, t, scope, ip, from) && InThePast(t)
  {
    NothingLater(c, s, scope, ip, from, s.now + 1, s.now + seconds + 1);
  }

  lemma StepKeepsPace(c: Config, s: Site, e: Event, scope: string, ip: string, from: nat)
    requires ValidConfig(c) && InThePast(s) && Paced(c, s, scope, ip, from) && Colonless(scope)
    ensures Paced(c, Step(c, s, e), scope, ip, from) && InThePast(Step(c, s, e))
  {
    if e.Wait? {
      WaitKeepsPace(c, s, scope, ip, from, e.seconds);
    } else {
      var other := if e.Register? then REGISTER else BAD_TOKEN;
      assert Colonless(other);
      if other == scope && e.ip == ip { AttemptKeepsPace(c, s, scope, ip, from); } else { OtherKeepsPace(c, s, scope, ip, other, e.ip, from); }
    }
  }

  lemma {:induction false} RunKeepsPace(c: Config, es: seq<Event>, scope: string, ip: string, from: nat)
    requires ValidConfig(c) && Colonless(scope)
    ensures Paced(c, Run(c, es), scope, ip, from) && InThePast(Run(c, es))
  {
    if es != [] {
      RunKeepsPace(c, es[..|es| - 1], scope, ip, from);
      StepKeepsPace(c, Run(c, es[..|es| - 1]), es[|es| - 1], scope, ip, from);
    }
  }

  function CeilDiv(a: nat, b: nat): nat
    requires b > 0
  {
    (a + b - 1) / b
  }

  lemma PaceBounds(c: Config, s: Site, scope: string, ip: string, from: nat, span: nat)
    requires ValidConfig(c) && Paced(c, s, scope, ip, from) && s.now < from + span
    ensures DoneWithin(s.done, scope, ip, from, s.now + 1) <= c.threshold * (CeilDiv(span, c.window) + 1)
  {
    var key := IpKey(scope, ip);
    var bound := CeilDiv(span, c.window);
    MulMono(c.threshold, 1, bound + 1);
    if key in s.cache {
      var started := s.cache[key].expires - c.window;
      if from <= started {
        var q := (started - from) / c.window;
        DivStep(started - from, span + c.window - 1, c.window);
        MulMono(c.threshold, q + 2, bound + 1);
        assert c.threshold * (q + 2) == c.threshold * (q + 1) + c.threshold;
      }
    }
  }

  /** Over any `span` seconds one address does at most threshold * (ceil(span / window) + 1) units of
      work in one scope, whatever else happens. */
  lemma {:induction false} WholeRunBound(c: Config, es: seq<Event>, scope: string, ip: string, from: nat, span: nat)
    requires ValidConfig(c) && Colonless(scope)
    ensures DoneWithin(Run(c, es).done, scope, ip, from, from + span) <= c.threshold * (CeilDiv(span, c.window) + 1)
  {
    var s := Run(c, es);
    RunKeepsPace(c, es, scope, ip, from);
    if s.now < from + span {
      NothingLater(c, s, scope, ip, from, s.now + 1, from + span);
      PaceBounds(c, s, scope, ip, from, span);
    } else if es != [] {
      WholeRunBound(c, es[..|es| - 1], scope, ip, from, span);
      LateStep(c, Run(c, es[..|es| - 1]), es[|es| - 1], scope, ip, from, from + span);
    }
  }

  /** A step that ends at or after `t` adds no work before `t`. */
  lemma LateStep(c: Config, s: Site, e: Event, scope: string, ip: string, from: nat, t: nat)
    requires Step(c, s, e).now >= t
    ensures DoneWithin(Step(c, s, e).done, scope, ip, from, t) == DoneWithin(s.done, scope, ip, from, t)
  {
    if !e.Wait? {
      DoneSnoc(s.done, Work(if e.Register? then REGISTER else BAD_TOKEN, e.ip, s.now), scope, ip, from, t);
    }
  }

  // ----- what a valid configuration is for -----

  /** The throttle does its work: some registration gets through at once, and within one second no run
      gets more than some fixed number through. */
  ghost predicate Throttles(c: Config) {
    && (exists es, ip :: DoneWithin(Run(c, es).done, REGISTER, ip, 0, 1) > 0)
    && exists most: nat :: AtMost(c, most)
  }

  ghost predicate AtMost(c: Config, most: nat) { forall es, ip :: DoneWithin(Run(c, es).done, REGISTER, ip, 0, 1) <= most }

  /** The same registration `n` times over. */
  function Storm(ip: string, n: nat): (es: seq<Event>)
    ensures |es| == n
  {
    if n == 0 then [] else Storm(ip, n - 1) + [Register(ip)]
  }

  /** With a window of no length every counter has expired when it is read, so nothing is ever blocked. */
  lemma {:induction false} StormPasses(threshold: nat, ip: string, n: nat)
    requires threshold > 0
    ensures var s := Run(Config(threshold, 0), Storm(ip, n));
            s.now == 0 && DoneWithin(s.done, REGISTER, ip, 0, 1) == n && (forall k | k in s.cache :: s.cache[k].expires == 0)
  {
    var c := Config(threshold, 0);
    if n > 0 {
      StormPasses(threshold, ip, n - 1);
      var s := Run(c, Storm(ip, n - 1));
      assert Storm(ip, n)[..n - 1] == Storm(ip, n - 1);
      assert Run(c, Storm(ip, n)) == Step(c, s, Register(ip));
      assert !Blocked(c, s, REGISTER, ip);
      DoneSnoc(s.done, Work(REGISTER, ip, 0), REGISTER, ip, 0, 1);
    }
  }

  /** With a threshold of zero everything is blocked. */
  lemma {:induction false} NothingPasses(window: nat, es: seq<Event>)
    ensures Run(Config(0, window), es).done == []
  {
    if es != [] { NothingPasses(window, es[..|es| - 1]); }
  }

  /** A configuration throttles exactly if threshold and window are positive. */
  lemma ThrottlesIffValid(c: Config)
    ensures Throttles(c) <==> ValidConfig(c)
  {
    if ValidConfig(c) {
      var ip := "";
      var none: seq<Event> := [];
      assert [Register(ip)][..0] == none;
      assert Run(c, [Register(ip)]) == Step(c, Fresh(), Register(ip));
      DoneSnoc([], Work(REGISTER, ip, 0), REGISTER, ip, 0, 1);
      assert DoneWithin(Run(c, [Register(ip)]).done, REGISTER, ip, 0, 1) > 0;
      var most := c.threshold * (CeilDiv(1, c.window) + 1);
      forall es, ip ensures DoneWithin(Run(c, es).done, REGISTER, ip, 0, 1) <= most {
        WholeRunBound(c, es, REGISTER, ip, 0, 1);
      }
      assert AtMost(c, most);
    } else if c.threshold == 0 {
      forall es, ip ensures DoneWithin(Run(c, es).done, REGISTER, ip, 0, 1) == 0 { NothingPasses(c.window, es); }
    } else if Throttles(c) {
      var most: nat :| AtMost(c, most);
      StormPasses(c.threshold, "", most + 1);
      assert false;
    }
  }

  // ----- the stateful surface -----

  class Gate {
    const config: Config
    var now: nat
    var cache: map<string, Counter>
    var done: seq<Work>
    var warnings: seq<string>

    ghost function View(): Site
      reads this
    {
      Site(now, cache, done, warnings)
    }

    constructor (config: Config)
      ensures this.config == config && View() == Fresh()
    {
      this.config := config;
      now, cache, done, warnings := 0, map[], [], [];
    }

    method Advance(seconds: nat)
      modifies this`now
      ensures View() == Step(config, old(View()), Wait(seconds))
    {
      now := now + seconds;
    }

    /** One cache read; a cache outage lets the request through. */
    method IsIpBlocked(ip: string, scope: string, up: bool) returns (blocked: bool)
      ensures blocked <==> up && Blocked(config, View(), scope, ip)
    {
      if !up { return false; }
      var key := IpKey(scope, ip);
      var count := if key in cache && now < cache[key].expires then cache[key].value else 0;
      return count >= config.threshold;
    }

    /** Seed, increment, warn once at the crossing; a cache outage records nothing and reports 0. */
    method RecordAttempt(ip: string, scope: string, up: bool) returns (count: nat)
      requires ValidConfig(config)
      modifies this`cache, this`warnings
      ensures up ==> View() == Recorded(config, old(View()), scope, ip) && count == Read(View(), IpKey(scope, ip))
      ensures !up ==> View() == old(View()) && count == 0
    {
      if !up { return 0; }
      var key := IpKey(scope, ip);
      if !(key in cache && now < cache[key].expires) {
        cache := cache[key := Counter(0, now + config.window)];
      }
      count := cache[key].value + 1;
      cache := cache[key := Counter(count, cache[key].expires)];
      if count == config.threshold { warnings := warnings + [key]; }
    }

    /** A well-formed registration: the silent block answers alike but creates nothing. */
    method RegisterClient(ip: string) returns (created: bool)
      requires ValidConfig(config)
      modifies this`cache, this`warnings, this`done
      ensures View() == Step(config, old(View()), Register(ip))
      ensures created <==> !Blocked(config, old(View()), REGISTER, ip)
      ensures done == old(done) + if created then [Work(REGISTER, ip, now)] else []
    {
      var blocked := IsIpBlocked(ip, REGISTER, true);
      if blocked { return false; }
      done := done + [Work(REGISTER, ip, now)];
      var _ := RecordAttempt(ip, REGISTER, true);
      return true;
    }

    /** The bearer check: a blocked address is turned away before the token is looked up, and only a
        lookup that fails is recorded. */
    method CheckBearer(ip: string, hasHeader: bool, valid: bool) returns (resolved: bool)
      requires ValidConfig(config)
      modifies this`cache, this`warnings, this`done
      ensures View() == Step(config, old(View()), Bearer(ip, hasHeader, valid))
      ensures resolved <==> valid && !(hasHeader && Blocked(config, old(View()), BAD_TOKEN, ip))
    {
      if hasHeader {
        var blocked := IsIpBlocked(ip, BAD_TOKEN, true);
        if blocked { return false; }
      }
      if !valid {
        if hasHeader {
          done := done + [Work(BAD_TOKEN, ip, now)];
          var _ := RecordAttempt(ip, BAD_TOKEN, true);
        }
        return false;
      }
      return true;
    }
  }
}
