/** The audit log and the per-user volume counters that must agree with it.

    A `Meter` holds the cached counters and the alerts, with three pieces of bookkeeping that say what
    they mean: at which log position each live window instance began (`born`), how far every instance
    ever got (`peaks`), and for which instance each alert was raised (`alertLog`). The class
    `AuditTrail` updates such a state in place; the lemmas are about the functions it implements. */
module Observability {
  import opened Prelude
  import opened SqlTree
  import opened SqlValidator

  datatype Decision = Allowed | Rejected

  datatype AuditRow = AuditRow(user: string, profile: string, decision: Decision, reason: Option<Reason>, raw: string,
                               normalized: Option<Node>, wrapped: Option<Node>, rowCount: nat, truncated: bool,
                               resultBytes: nat, error: string)

  datatype Key = Key(decision: Decision, window: nat, user: string)

  datatype Counter = Counter(value: nat, expires: nat)

  /** One tripwire: a window in seconds and the count that trips it. */
  datatype Wire = Wire(window: nat, threshold: nat)

  datatype Wiring = Wiring(allowed: seq<Wire>, rejected: seq<Wire>)

  function WiresFor(w: Wiring, d: Decision): seq<Wire> { if d.Allowed? then w.allowed else w.rejected }

  /** Positive numbers, and one wire per window length. */
  predicate ValidWires(ws: seq<Wire>) {
    && (forall i | 0 <= i < |ws| :: ws[i].window > 0 && ws[i].threshold > 0)
    && forall i, j | 0 <= i < j < |ws| :: ws[i].window != ws[j].window
  }

  predicate ValidWiring(w: Wiring) { ValidWires(w.allowed) && ValidWires(w.rejected) }

  predicate Matches(r: AuditRow, user: string, decision: Decision) { r.user == user && r.decision == decision }

  /** How many of the rows are of this user and decision. */
  function Tally(rows: seq<AuditRow>, user: string, decision: Decision): nat {
    if rows == [] then 0
    else Tally(rows[..|rows| - 1], user, decision) + if Matches(rows[|rows| - 1], user, decision) then 1 else 0
  }

  /** A window instance: its key and the log position of its first row. */
  type Instance = (Key, nat)

  datatype Meter = Meter(cache: map<Key, Counter>, alerts: seq<Key>,
                         born: map<Key, nat>, peaks: map<Instance, nat>, alertLog: seq<Instance>)

  datatype Books = Books(now: nat, attempts: nat, log: seq<AuditRow>, meter: Meter)

  function FreshMeter(): Meter { Meter(map[], [], map[], map[], []) }

  function FreshBooks(): Books { Books(0, 0, [], FreshMeter()) }

  predicate Live(m: Meter, now: nat, k: Key) { k in m.cache && now < m.cache[k].expires }

  // ----- the transitions; `at` is the position of the newest log row -----

  /** Seed the counter unless its window is live. */
  function Seeded(m: Meter, now: nat, at: nat, k: Key): Meter {
    if Live(m, now, k) then m
    else Meter(m.cache[k := Counter(0, now + k.window)], m.alerts, m.born[k := at], m.peaks[(k, at) := 0], m.alertLog)
  }

  /** Increment a seeded counter and alert when it meets the threshold exactly. */
  function Bumped(m: Meter, k: Key, threshold: nat): Meter
    requires k in m.cache && k in m.born
  {
    var count := m.cache[k].value + 1;
    var x := (k, m.born[k]);
    Meter(m.cache[k := Counter(count, m.cache[k].expires)],
          if count == threshold then m.alerts + [k] else m.alerts,
          m.born, m.peaks[x := count],
          if count == threshold then m.alertLog + [x] else m.alertLog)
  }

  /** Seed, increment, alert. */
  function Counted(m: Meter, now: nat, at: nat, k: Key, threshold: nat): Meter
    requires m.cache.Keys <= m.born.Keys
  {
    Bumped(Seeded(m, now, at, k), k, threshold)
  }

  /** Count a row of this user and decision under the first `i` wires. */
  function CountedAll(m: Meter, now: nat, at: nat, d: Decision, user: string, ws: seq<Wire>, i: nat): (c: Meter)
    requires i <= |ws| && m.cache.Keys <= m.born.Keys
    ensures c.cache.Keys <= c.born.Keys
  {
    if i == 0 then m
    else Counted(CountedAll(m, now, at, d, user, ws, i - 1), now, at, Key(d, ws[i - 1].window, user), ws[i - 1].threshold)
  }

  /** One audit attempt: a row that is written is also counted. */
  function Audited(w: Wiring, b: Books, r: AuditRow, writes: bool): Books
    requires b.meter.cache.Keys <= b.meter.born.Keys
  {
    if !writes then Books(b.now, b.attempts + 1, b.log, b.meter)
    else
      var ws := WiresFor(w, r.decision);
      Books(b.now, b.attempts + 1, b.log + [r], CountedAll(b.meter, b.now, |b.log|, r.decision, r.user, ws, |ws|))
  }

  // ----- the invariant -----

  /** The table of that decision has the wire. */
  predicate Configured(w: Wiring, d: Decision, wire: Wire) { (d.Allowed? && wire in w.allowed) || (d.Rejected? && wire in w.rejected) }

  ghost predicate Wired(w: Wiring, k: Key, t: nat) { Configured(w, k.decision, Wire(k.window, t)) }

  /** A counter's window instance is on record with its count, which for a live window is the number of
      its user's rows of its decision logged since the window began. */
  ghost predicate Agrees(m: Meter, now: nat, log: seq<AuditRow>, k: Key)
    requires k in m.cache
  {
    && k in m.born && (k, m.born[k]) in m.peaks && m.peaks[(k, m.born[k])] == m.cache[k].value
    && (Live(m, now, k) ==> m.born[k] <= |log| && m.cache[k].value == Tally(log[m.born[k]..], k.user, k.decision))
  }

  /** Every window instance that reached its threshold alerted exactly once, and no other did. */
  ghost predicate AlertsExact(w: Wiring, m: Meter) {
    && |m.alertLog| == |m.alerts| && (forall i | 0 <= i < |m.alerts| :: m.alertLog[i].0 == m.alerts[i])
    && (forall x | x in m.alertLog :: x in m.peaks)
    && forall x, t | x in m.peaks && Wired(w, x.0, t) :: multiset(m.alertLog)[x] == if m.peaks[x] >= t then 1 else 0
  }

  /** The keys in `done` have counted the newest row `r`; the others have not. */
  ghost predicate Midway(w: Wiring, m: Meter, now: nat, log: seq<AuditRow>, r: AuditRow, done: set<Key>) {
    && (forall k | k in m.cache :: Agrees(m, now, if k in done then log + [r] else log, k) && exists t :: Wired(w, k, t))
    && (forall x | x in m.peaks :: x.1 < |log| || (x.1 == |log| && x.0 in done))
    && AlertsExact(w, m)
  }

  ghost predicate Valid(w: Wiring, b: Books) {
    && (forall k | k in b.meter.cache :: Agrees(b.meter, b.now, b.log, k) && exists t :: Wired(w, k, t))
    && (forall x | x in b.meter.peaks :: x.1 < |b.log|)
    && AlertsExact(w, b.meter)
  }

  lemma TallySnoc(rows: seq<AuditRow>, r: AuditRow, user: string, decision: Decision)
    ensures Tally(rows + [r], user, decision) == Tally(rows, user, decision) + if Matches(r, user, decision) then 1 else 0
  {
    assert (rows + [r])[..|rows|] == rows;
  }

  lemma WireUnique(w: Wiring, k: Key, t: nat, u: nat)
    requires ValidWiring(w) && Wired(w, k, t) && Wired(w, k, u)
    ensures t == u && t > 0
  {
  }

  lemma SeedKeepsAlerts(w: Wiring, m: Meter, now: nat, at: nat, k: Key)
    requires ValidWiring(w) && AlertsExact(w, m) && (k, at) !in m.peaks
    ensures AlertsExact(w, Seeded(m, now, at, k))
  {
    var x := (k, at);
    assert x !in m.alertLog;
    forall t | Wired(w, k, t) ensures t > 0 { WireUnique(w, k, t, t); }
  }

  /** The instance's alert comes at the one increment that meets its threshold. */
  lemma BumpKeepsAlerts(w: Wiring, m: Meter, k: Key, t: nat)
    requires ValidWiring(w) && AlertsExact(w, m) && Wired(w, k, t)
    requires k in m.cache && k in m.born && (k, m.born[k]) in m.peaks && m.peaks[(k, m.born[k])] == m.cache[k].value
    ensures AlertsExact(w, Bumped(m, k, t))
  {
    var x := (k, m.born[k]);
    forall u | Wired(w, k, u) ensures u == t { WireUnique(w, k, t, u); }
    assert multiset(m.alertLog + [x]) == multiset(m.alertLog) + multiset{x};
  }

  /** Counting under one more wire leaves the other keys as they were. */
  lemma CountKeepsOthers(w: Wiring, m: Meter, now: nat, log: seq<AuditRow>, r: AuditRow, done: set<Key>, k: Key, t: nat, o: Key)
    requires Midway(w, m, now, log, r, done) && k !in done && o != k
    requires m.cache.Keys <= m.born.Keys && o in Counted(m, now, |log|, k, t).cache
    ensures o in m.cache && Agrees(Counted(m, now, |log|, k, t), now, if o in done then log + [r] else log, o)
  {
    assert Agrees(m, now, if o in done then log + [r] else log, o);
  }

  lemma CountKeepsThis(w: Wiring, m: Meter, now: nat, log: seq<AuditRow>, r: AuditRow, done: set<Key>, k: Key, t: nat)
    requires ValidWiring(w) && Midway(w, m, now, log, r, done) && k !in done && Wired(w, k, t)
    requires m.cache.Keys <= m.born.Keys && Matches(r, k.user, k.decision)
    ensures Agrees(Counted(m, now, |log|, k, t), now, log + [r], k)
  {
    hide AlertsExact, Wired, ValidWiring;
    if Live(m, now, k) {
      assert Agrees(m, now, log, k);
      TailGrows(log, r, m.born[k], k);
    } else {
      TailGrows(log, r, |log|, k);
    }
  }

  lemma TailGrows(log: seq<AuditRow>, r: AuditRow, from: nat, k: Key)
    requires from <= |log| && Matches(r, k.user, k.decision)
    ensures Tally((log + [r])[from..], k.user, k.decision) == Tally(log[from..], k.user, k.decision) + 1
  {
    hide Tally, Matches;
    assert (log + [r])[from..] == log[from..] + [r];
    TallySnoc(log[from..], r, k.user, k.decision);
  }

  lemma CountKeepsAlerts(w: Wiring, m: Meter, now: nat, log: seq<AuditRow>, r: AuditRow, done: set<Key>, k: Key, t: nat)
    requires ValidWiring(w) && Midway(w, m, now, log, r, done) && k !in done && Wired(w, k, t)
    requires m.cache.Keys <= m.born.Keys
    ensures AlertsExact(w, Counted(m, now, |log|, k, t))
  {
    hide AlertsExact;
    if !Live(m, now, k) { SeedKeepsAlerts(w, m, now, |log|, k); } else { assert Agrees(m, now, log, k); }
    BumpKeepsAlerts(w, Seeded(m, now, |log|, k), k, t);
  }

  lemma CountKeepsPeaks(w: Wiring, m: Meter, now: nat, log: seq<AuditRow>, r: AuditRow, done: set<Key>, k: Key, t: nat)
    requires Midway(w, m, now, log, r, done) && k !in done && m.cache.Keys <= m.born.Keys
    ensures forall x | x in Counted(m, now, |log|, k, t).peaks :: x.1 < |log| || (x.1 == |log| && x.0 in done + {k})
  {
    hide AlertsExact, Agrees;
    if Live(m, now, k) { LiveInstance(w, m, now, log, r, done, k); }
  }

  lemma CountKeeps(w: Wiring, m: Meter, now: nat, log: seq<AuditRow>, r: AuditRow, done: set<Key>, k: Key, t: nat)
    requires ValidWiring(w) && Midway(w, m, now, log, r, done) && k !in done && Wired(w, k, t)
    requires m.cache.Keys <= m.born.Keys && Matches(r, k.user, k.decision)
    ensures Midway(w, Counted(m, now, |log|, k, t), now, log, r, done + {k})
  {
    hide AlertsExact, Agrees, Wired, Counted, ValidWiring, Matches;
    var d := Counted(m, now, |log|, k, t);
    CountKeepsThis(w, m, now, log, r, done, k, t);
    CountKeepsAlerts(w, m, now, log, r, done, k, t);
    CountKeepsPeaks(w, m, now, log, r, done, k, t);
    forall o | o in d.cache
      ensures Agrees(d, now, if o in done + {k} then log + [r] else log, o) && exists u :: Wired(w, o, u)
    {
      if o != k { CountKeepsOthers(w, m, now, log, r, done, k, t, o); }
    }
  }

  lemma LiveInstance(w: Wiring, m: Meter, now: nat, log: seq<AuditRow>, r: AuditRow, done: set<Key>, k: Key)
    requires Midway(w, m, now, log, r, done) && k in m.cache
    ensures k in m.born && (k, m.born[k]) in m.peaks
  {
    assert Agrees(m, now, if k in done then log + [r] else log, k);
  }

  ghost function DoneKeys(d: Decision, user: string, ws: seq<Wire>, i: nat): set<Key>
    requires i <= |ws|
  {
    if i == 0 then {} else DoneKeys(d, user, ws, i - 1) + {Key(d, ws[i - 1].window, user)}
  }

  lemma {:induction false} DoneKey(d: Decision, user: string, ws: seq<Wire>, i: nat, k: Key)
    requires i <= |ws|
    ensures k in DoneKeys(d, user, ws, i) <==> k.decision == d && k.user == user && exists j :: 0 <= j < i && ws[j].window == k.window
  {
    if i > 0 { DoneKey(d, user, ws, i - 1, k); }
  }

  lemma {:induction false} CountAllKeeps(w: Wiring, m: Meter, now: nat, log: seq<AuditRow>, r: AuditRow, ws: seq<Wire>, i: nat)
    requires ValidWiring(w) && ws == WiresFor(w, r.decision) && i <= |ws|
    requires m.cache.Keys <= m.born.Keys && Midway(w, m, now, log, r, {})
    ensures Midway(w, CountedAll(m, now, |log|, r.decision, r.user, ws, i), now, log, r, DoneKeys(r.decision, r.user, ws, i))
  {
    hide Midway;
    if i == 0 {
      assert DoneKeys(r.decision, r.user, ws, 0) == {};
      assert CountedAll(m, now, |log|, r.decision, r.user, ws, 0) == m;
    } else {
      var c := CountedAll(m, now, |log|, r.decision, r.user, ws, i - 1);
      CountAllKeeps(w, m, now, log, r, ws, i - 1);
      CountNext(w, c, now, log, r, ws, i - 1);
      assert CountedAll(m, now, |log|, r.decision, r.user, ws, i)
          == Counted(c, now, |log|, Key(r.decision, ws[i - 1].window, r.user), ws[i - 1].threshold);
    }
  }

  lemma CountNext(w: Wiring, c: Meter, now: nat, log: seq<AuditRow>, r: AuditRow, ws: seq<Wire>, i: nat)
    requires ValidWiring(w) && ws == WiresFor(w, r.decision) && i < |ws| && c.cache.Keys <= c.born.Keys
    requires Midway(w, c, now, log, r, DoneKeys(r.decision, r.user, ws, i))
    ensures Midway(w, Counted(c, now, |log|, Key(r.decision, ws[i].window, r.user), ws[i].threshold), now, log, r,
                   DoneKeys(r.decision, r.user, ws, i + 1))
  {
    var k := Key(r.decision, ws[i].window, r.user);
    assert Wired(w, k, ws[i].threshold);
    DoneKey(r.decision, r.user, ws, i, k);
    CountKeeps(w, c, now, log, r, DoneKeys(r.decision, r.user, ws, i), k, ws[i].threshold);
  }

  /** A counter that did not count the row is of another user or decision, so it agrees all the same. */
  lemma Settle(w: Wiring, m: Meter, now: nat, log: seq<AuditRow>, r: AuditRow, k: Key)
    requires k in m.cache && (exists t :: Wired(w, k, t))
    requires var done := DoneKeys(r.decision, r.user, WiresFor(w, r.decision), |WiresFor(w, r.decision)|);
             Agrees(m, now, if k in done then log + [r] else log, k)
    ensures Agrees(m, now, log + [r], k)
  {
    var ws := WiresFor(w, r.decision);
    DoneKey(r.decision, r.user, ws, |ws|, k);
    if k !in DoneKeys(r.decision, r.user, ws, |ws|) && Live(m, now, k) {
      assert !Matches(r, k.user, k.decision);
      assert (log + [r])[m.born[k]..] == log[m.born[k]..] + [r];
      TallySnoc(log[m.born[k]..], r, k.user, k.decision);
    }
  }

  lemma ValidKeys(w: Wiring, b: Books)
    requires Valid(w, b)
    ensures b.meter.cache.Keys <= b.meter.born.Keys
  {
    forall k | k in b.meter.cache ensures k in b.meter.born { assert Agrees(b.meter, b.now, b.log, k); }
  }

  /** An audit attempt keeps counters and alerts in step with the log. */
  lemma {:induction false} AuditKeeps(w: Wiring, b: Books, r: AuditRow, writes: bool)
    requires ValidWiring(w) && Valid(w, b)
    ensures b.meter.cache.Keys <= b.meter.born.Keys && Valid(w, Audited(w, b, r, writes))
  {
    ValidKeys(w, b);
    if writes {
      var ws := WiresFor(w, r.decision);
      CountAllKeeps(w, b.meter, b.now, b.log, r, ws, |ws|);
      var c := CountedAll(b.meter, b.now, |b.log|, r.decision, r.user, ws, |ws|);
      forall k | k in c.cache ensures Agrees(c, b.now, b.log + [r], k) {
        Settle(w, c, b.now, b.log, r, k);
      }
    }
  }

  lemma WaitKeeps(w: Wiring, b: Books, seconds: nat)
    requires Valid(w, b)
    ensures Valid(w, Books(b.now + seconds, b.attempts, b.log, b.meter))
  {
    forall k | k in b.meter.cache ensures Agrees(b.meter, b.now + seconds, b.log, k) {
      assert Agrees(b.meter, b.now, b.log, k);
    }
  }

  datatype Event = Pass(seconds: nat) | Attempt(row: AuditRow, writes: bool)

  function After(w: Wiring, b: Books, e: Event): (c: Books)
    requires b.meter.cache.Keys <= b.meter.born.Keys
    ensures c.meter.cache.Keys <= c.meter.born.Keys
  {
    match e
    case Pass(seconds) => Books(b.now + seconds, b.attempts, b.log, b.meter)
    case Attempt(row, writes) => Audited(w, b, row, writes)
  }

  function ReplayFrom(w: Wiring, b: Books, es: seq<Event>): (e: Books)
    requires b.meter.cache.Keys <= b.meter.born.Keys
    ensures e.meter.cache.Keys <= e.meter.born.Keys
  {
    if es == [] then b else After(w, ReplayFrom(w, b, es[..|es| - 1]), es[|es| - 1])
  }

  function Replay(w: Wiring, es: seq<Event>): (b: Books)
    ensures b.meter.cache.Keys <= b.meter.born.Keys
  {
    ReplayFrom(w, FreshBooks(), es)
  }

  lemma {:induction false} ReachableIsValid(w: Wiring, es: seq<Event>)
    requires ValidWiring(w)
    ensures Valid(w, Replay(w, es))
  {
    if es != [] {
      var front := es[..|es| - 1];
      ReachableIsValid(w, front);
      match es[|es| - 1]
      case Pass(seconds) => WaitKeeps(w, Replay(w, front), seconds);
      case Attempt(row, writes) => AuditKeeps(w, Replay(w, front), row, writes);
    }
  }

  /** The instances of key `k` that reached the threshold `t`. */
  ghost function Tripped(m: Meter, k: Key, t: nat): set<Instance> { set x | x in m.peaks && x.0 == k && m.peaks[x] >= t }

  ghost function Of(log: seq<Instance>, k: Key): set<Instance> { set x | x in log && x.0 == k }

  /** Of a log without repetitions of `k`, the alerts for `k` are as many as its instances. */
  lemma {:induction false} AlertsPerKey(alerts: seq<Key>, log: seq<Instance>, k: Key, n: nat)
    requires n <= |alerts| == |log| && forall i | 0 <= i < |log| :: log[i].0 == alerts[i]
    requires forall i, j | 0 <= i < j < |log| && log[i].0 == k :: log[i] != log[j]
    ensures multiset(alerts[..n])[k] == |Of(log[..n], k)|
  {
    if n > 0 {
      AlertsPerKey(alerts, log, k, n - 1);
      var before := log[..n - 1];
      assert log[..n] == before + [log[n - 1]] && alerts[..n] == alerts[..n - 1] + [alerts[n - 1]];
      assert log[n - 1].0 == k ==> log[n - 1] !in before;
      hide Of;
      OneMoreOf(before, log[n - 1], k);
      CountSnoc(alerts[..n - 1], alerts[n - 1], k);
    }
  }

  lemma OneMoreOf(log: seq<Instance>, x: Instance, k: Key)
    requires x.0 == k ==> x !in log
    ensures |Of(log + [x], k)| == |Of(log, k)| + if x.0 == k then 1 else 0
  {
    assert Of(log + [x], k) == Of(log, k) + if x.0 == k then {x} else {};
  }

  lemma CountSnoc(alerts: seq<Key>, a: Key, k: Key)
    ensures multiset(alerts + [a])[k] == multiset(alerts)[k] + if a == k then 1 else 0
  {
    assert multiset(alerts + [a]) == multiset(alerts) + multiset{a};
  }

  /** An element counted once stands at one place. */
  lemma OncePlaced<T>(s: seq<T>, i: nat, j: nat)
    requires i < j < |s| && s[i] == s[j]
    ensures multiset(s)[s[i]] >= 2
  {
    assert s == s[..j] + s[j..];
    assert multiset(s) == multiset(s[..j]) + multiset(s[j..]);
    assert s[i] == s[..j][i] && s[j] == s[j..][0];
    assert s[i] in multiset(s[..j]) && s[j] in multiset(s[j..]);
  }

  /** In every reachable state each live counter is the number of matching rows logged since its window
      began; each window instance has alerted exactly once if it reached its threshold, else never; and the
      alerts emitted for a key are as many as its instances that did. */
  lemma CountersAgreeWithLog(w: Wiring, es: seq<Event>, k: Key, x: Instance, t: nat)
    requires ValidWiring(w)
    ensures var b := Replay(w, es);
            Live(b.meter, b.now, k) ==>
              k in b.meter.born && b.meter.born[k] <= |b.log|
              && b.meter.cache[k].value == Tally(b.log[b.meter.born[k]..], k.user, k.decision)
    ensures var m := Replay(w, es).meter;
            x in m.peaks && Wired(w, x.0, t) ==> multiset(m.alertLog)[x] == if m.peaks[x] >= t then 1 else 0
    ensures var m := Replay(w, es).meter;
            Wired(w, k, t) ==> multiset(m.alerts)[k] == |Tripped(m, k, t)|
  {
    ReachableIsValid(w, es);
    var b := Replay(w, es);
    if k in b.meter.cache { assert Agrees(b.meter, b.now, b.log, k); }
    if Wired(w, k, t) { AlertsEmitted(w, b.meter, k, t); }
  }

  lemma AlertsEmitted(w: Wiring, m: Meter, k: Key, t: nat)
    requires AlertsExact(w, m) && Wired(w, k, t)
    ensures multiset(m.alerts)[k] == |Tripped(m, k, t)|
  {
    forall i, j | 0 <= i < j < |m.alertLog| && m.alertLog[i].0 == k ensures m.alertLog[i] != m.alertLog[j] {
      assert m.alertLog[i] in m.alertLog;
      if m.alertLog[i] == m.alertLog[j] { OncePlaced(m.alertLog, i, j); }
    }
    AlertsPerKey(m.alerts, m.alertLog, k, |m.alerts|);
    assert m.alerts[..|m.alerts|] == m.alerts && m.alertLog[..|m.alerts|] == m.alertLog;
    forall x ensures x in Of(m.alertLog, k) <==> x in Tripped(m, k, t) {
      if x in m.peaks && x.0 == k { assert x in m.alertLog <==> multiset(m.alertLog)[x] > 0; }
    }
    assert Of(m.alertLog, k) == Tripped(m, k, t);
  }

  // ----- fixed windows, seen from outside -----

  function Seconds(e: Event): nat { if e.Pass? then e.seconds else 0 }

  function Elapsed(es: seq<Event>): nat { if es == [] then 0 else Elapsed(es[..|es| - 1]) + Seconds(es[|es| - 1]) }

  /** The event writes a row of this user and decision. */
  predicate Writes(e: Event, user: string, d: Decision) { e.Attempt? && e.writes && e.row.user == user && e.row.decision == d }

  function Written(es: seq<Event>, user: string, d: Decision): nat {
    if es == [] then 0 else Written(es[..|es| - 1], user, d) + if Writes(es[|es| - 1], user, d) then 1 else 0
  }

  /** Counter and alerts of one key are the same in both. */
  ghost predicate SameFor(m: Meter, c: Meter, k: Key) {
    (k in c.cache <==> k in m.cache) && (k in c.cache ==> c.cache[k] == m.cache[k]) && multiset(c.alerts)[k] == multiset(m.alerts)[k]
  }

  /** The key has counted once more, in its window if that is live and in a new one otherwise, and has
      alerted exactly if that met its threshold. */
  ghost predicate OnceMore(m: Meter, c: Meter, now: nat, k: Key, threshold: nat) {
    && k in c.cache
    && c.cache[k] == (if Live(m, now, k) then Counter(m.cache[k].value + 1, m.cache[k].expires) else Counter(1, now + k.window))
    && multiset(c.alerts)[k] == multiset(m.alerts)[k] + if c.cache[k].value == threshold then 1 else 0
  }

  lemma CountedFor(m: Meter, now: nat, at: nat, k: Key, threshold: nat, o: Key)
    requires m.cache.Keys <= m.born.Keys
    ensures var c := Counted(m, now, at, k, threshold); if o == k then OnceMore(m, c, now, k, threshold) else SameFor(m, c, o)
  {
    CountSnoc(m.alerts, k, o);
  }

  lemma Composed(m: Meter, c: Meter, e: Meter, now: nat, o: Key)
    ensures SameFor(m, c, o) && SameFor(c, e, o) ==> SameFor(m, e, o)
    ensures forall t :: SameFor(m, c, o) && OnceMore(c, e, now, o, t) ==> OnceMore(m, e, now, o, t)
    ensures forall t :: OnceMore(m, c, now, o, t) && SameFor(c, e, o) ==> OnceMore(m, e, now, o, t)
  {
  }

  lemma {:induction false} CountedAllFor(m: Meter, now: nat, at: nat, d: Decision, user: string, ws: seq<Wire>, i: nat, o: Key)
    requires i <= |ws| && ValidWires(ws) && m.cache.Keys <= m.born.Keys
    ensures var c := CountedAll(m, now, at, d, user, ws, i);
            && (o.decision != d || o.user != user || (forall j | 0 <= j < i :: ws[j].window != o.window) ==> SameFor(m, c, o))
            && (o.decision == d && o.user == user ==> forall j | 0 <= j < i && ws[j].window == o.window :: OnceMore(m, c, now, o, ws[j].threshold))
  {
    if i > 0 {
      var c := CountedAll(m, now, at, d, user, ws, i - 1);
      CountedAllFor(m, now, at, d, user, ws, i - 1, o);
      var k, t := Key(d, ws[i - 1].window, user), ws[i - 1].threshold;
      CountedFor(c, now, at, k, t, o);
      Composed(m, c, Counted(c, now, at, k, t), now, o);
      hide Counted, SameFor, OnceMore, Live;
    }
  }

  /** A written row is counted under every wire of its decision's table, and under no other key. */
  lemma RowCounted(w: Wiring, b: Books, r: AuditRow, wire: Wire, o: Key)
    requires ValidWiring(w) && b.meter.cache.Keys <= b.meter.born.Keys && Configured(w, o.decision, wire) && o.window == wire.window
    ensures var e := Audited(w, b, r, true);
            if Matches(r, o.user, o.decision) then OnceMore(b.meter, e.meter, b.now, o, wire.threshold) else SameFor(b.meter, e.meter, o)
  {
    var ws := WiresFor(w, r.decision);
    CountedAllFor(b.meter, b.now, |b.log|, r.decision, r.user, ws, |ws|, o);
    if Matches(r, o.user, o.decision) { var j :| 0 <= j < |ws| && ws[j] == wire; }
  }

  /** The counter of `k` stands at `n` until `expires`, and one alert more than `before` was raised for it
      if that reached the threshold. */
  ghost predicate Stands(m: Meter, k: Key, n: nat, expires: nat, before: nat, threshold: nat) {
    k in m.cache && m.cache[k] == Counter(n, expires) && multiset(m.alerts)[k] == before + if n >= threshold then 1 else 0
  }

  lemma StandsNext(w: Wiring, b: Books, e: Event, wire: Wire, k: Key, n: nat, expires: nat, before: nat)
    requires ValidWiring(w) && b.meter.cache.Keys <= b.meter.born.Keys && Configured(w, k.decision, wire) && k.window == wire.window
    requires Stands(b.meter, k, n, expires, before, wire.threshold) && b.now < expires
    ensures Stands(After(w, b, e).meter, k, n + if Writes(e, k.user, k.decision) then 1 else 0, expires, before, wire.threshold)
    ensures After(w, b, e).now == b.now + Seconds(e)
  {
    if e.Attempt? && e.writes {
      RowCounted(w, b, e.row, wire, k);
      hide Audited, Configured, ValidWiring;
    }
  }

  /** The window a row opens is fixed: for its configured length, whatever else is audited, the counter is
      the number of the user's rows of that decision written since, the opening one included, and an
      alert is raised for it once, when that number first meets the threshold. */
  lemma {:induction false} FixedWindow(w: Wiring, b: Books, r: AuditRow, es: seq<Event>, wire: Wire)
    requires ValidWiring(w) && b.meter.cache.Keys <= b.meter.born.Keys && Configured(w, r.decision, wire)
    requires !Live(b.meter, b.now, Key(r.decision, wire.window, r.user)) && Elapsed(es) < wire.window
    ensures Audited(w, b, r, true).meter.cache.Keys <= Audited(w, b, r, true).meter.born.Keys
    ensures var k, e := Key(r.decision, wire.window, r.user), ReplayFrom(w, Audited(w, b, r, true), es);
            && e.now == b.now + Elapsed(es)
            && Stands(e.meter, k, 1 + Written(es, r.user, r.decision), b.now + wire.window, multiset(b.meter.alerts)[k], wire.threshold)
    decreases |es|
  {
    var k := Key(r.decision, wire.window, r.user);
    WirePositive(w, r.decision, wire);
    WindowOpens(w, b, r, wire);
    hide Audited, Configured, ValidWiring, Stands, Live, After, Seconds, Writes;
    if es != [] {
      var some, last := es[..|es| - 1], es[|es| - 1];
      FixedWindow(w, b, r, some, wire);
      var e := ReplayFrom(w, Audited(w, b, r, true), some);
      StandsNext(w, e, last, wire, k, 1 + Written(some, r.user, r.decision), b.now + wire.window, multiset(b.meter.alerts)[k]);
    }
  }

  lemma WindowOpens(w: Wiring, b: Books, r: AuditRow, wire: Wire)
    requires ValidWiring(w) && b.meter.cache.Keys <= b.meter.born.Keys && Configured(w, r.decision, wire)
    requires !Live(b.meter, b.now, Key(r.decision, wire.window, r.user))
    ensures var k, e := Key(r.decision, wire.window, r.user), Audited(w, b, r, true);
            e.now == b.now && Stands(e.meter, k, 1, b.now + wire.window, multiset(b.meter.alerts)[k], wire.threshold)
  {
    RowCounted(w, b, r, wire, Key(r.decision, wire.window, r.user));
    WirePositive(w, r.decision, wire);
    hide Configured, ValidWiring;
  }

  lemma WirePositive(w: Wiring, d: Decision, wire: Wire)
    requires ValidWiring(w) && Configured(w, d, wire)
    ensures wire.window > 0 && wire.threshold > 0
  {
  }

  /** It ends when its length is over, unless another row has opened the next. */
  lemma {:induction false} WindowEnds(w: Wiring, b: Books, r: AuditRow, es: seq<Event>, wire: Wire)
    requires ValidWiring(w) && b.meter.cache.Keys <= b.meter.born.Keys && Configured(w, r.decision, wire)
    requires !Live(b.meter, b.now, Key(r.decision, wire.window, r.user)) && Written(es, r.user, r.decision) == 0
    ensures Audited(w, b, r, true).meter.cache.Keys <= Audited(w, b, r, true).meter.born.Keys
    ensures var e := ReplayFrom(w, Audited(w, b, r, true), es);
            && e.now == b.now + Elapsed(es) && SameFor(Audited(w, b, r, true).meter, e.meter, Key(r.decision, wire.window, r.user))
            && (Live(e.meter, e.now, Key(r.decision, wire.window, r.user)) <==> Elapsed(es) < wire.window)
    decreases |es|
  {
    var k := Key(r.decision, wire.window, r.user);
    RowCounted(w, b, r, wire, k);
    hide Audited, Configured, ValidWiring, After, Seconds, Writes;
    if es != [] {
      var some, last := es[..|es| - 1], es[|es| - 1];
      WindowEnds(w, b, r, some, wire);
      OthersKeep(w, ReplayFrom(w, Audited(w, b, r, true), some), last, wire, k);
    }
  }

  lemma OthersKeep(w: Wiring, b: Books, e: Event, wire: Wire, k: Key)
    requires ValidWiring(w) && b.meter.cache.Keys <= b.meter.born.Keys && Configured(w, k.decision, wire) && k.window == wire.window
    requires !Writes(e, k.user, k.decision)
    ensures SameFor(b.meter, After(w, b, e).meter, k) && After(w, b, e).now == b.now + Seconds(e)
  {
    if e.Attempt? && e.writes {
      RowCounted(w, b, e.row, wire, k);
      hide Audited, Configured, ValidWiring;
    }
  }

  /** No key is ever counted whose window is not in the table of its decision. */
  lemma OnlyConfigured(w: Wiring, es: seq<Event>, k: Key)
    requires ValidWiring(w) && k in Replay(w, es).meter.cache
    ensures if k.decision.Allowed? then exists i :: 0 <= i < |w.allowed| && w.allowed[i].window == k.window
            else exists i :: 0 <= i < |w.rejected| && w.rejected[i].window == k.window
  {
    ReachableIsValid(w, es);
    var t :| Wired(w, k, t);
    var wire := Wire(k.window, t);
    if k.decision.Allowed? {
      var i :| 0 <= i < |w.allowed| && w.allowed[i] == wire;
    } else {
      var i :| 0 <= i < |w.rejected| && w.rejected[i] == wire;
    }
  }

  // ----- the stateful trail -----

  class AuditTrail {
    const wiring: Wiring
    var now: nat
    var attempts: nat
    var log: seq<AuditRow>
    var cache: map<Key, Counter>
    var alerts: seq<Key>
    ghost var born: map<Key, nat>
    ghost var peaks: map<Instance, nat>
    ghost var alertLog: seq<Instance>

    ghost function Gauge(): Meter
      reads this
    {
      Meter(cache, alerts, born, peaks, alertLog)
    }

    ghost function View(): Books
      reads this
    {
      Books(now, attempts, log, Gauge())
    }

    ghost predicate Sound()
      reads this
    {
      ValidWiring(wiring) && cache.Keys <= born.Keys && Valid(wiring, View())
    }

    constructor (wiring: Wiring)
      requires ValidWiring(wiring)
      ensures this.wiring == wiring && View() == FreshBooks() && Sound()
    {
      this.wiring := wiring;
      now, attempts, log, cache, alerts := 0, 0, [], map[], [];
      born, peaks, alertLog := map[], map[], [];
    }

    method Wait(seconds: nat)
      requires Sound()
      modifies this`now
      ensures Sound() && View() == Books(old(now) + seconds, old(attempts), old(log), old(Gauge()))
    {
      WaitKeeps(wiring, View(), seconds);
      now := now + seconds;
    }

    /** Seed the counter unless its window is live. */
    method SeedCounter(k: Key, ghost at: nat)
      requires cache.Keys <= born.Keys
      modifies this`cache, this`born, this`peaks
      ensures Gauge() == Seeded(old(Gauge()), now, at, k)
    {
      if !(k in cache && now < cache[k].expires) {
        cache := cache[k := Counter(0, now + k.window)];
        born := born[k := at];
        peaks := peaks[(k, at) := 0];
      }
    }

    /** Increment a seeded counter and alert at the crossing. */
    method BumpCounter(k: Key, threshold: nat)
      requires k in cache && k in born
      modifies this`cache, this`alerts, this`peaks, this`alertLog
      ensures Gauge() == Bumped(old(Gauge()), k, threshold)
    {
      var count := cache[k].value + 1;
      ghost var x := (k, born[k]);
      cache := cache[k := Counter(count, cache[k].expires)];
      peaks := peaks[x := count];
      if count == threshold {
        alerts := alerts + [k];
        alertLog := alertLog + [x];
      }
    }

    /** Seed, increment, and alert at the crossing. */
    method CountWire(k: Key, threshold: nat, ghost at: nat)
      requires cache.Keys <= born.Keys
      modifies this`cache, this`alerts, this`born, this`peaks, this`alertLog
      ensures Gauge() == Counted(old(Gauge()), now, at, k, threshold)
    {
      SeedCounter(k, at);
      BumpCounter(k, threshold);
    }

    /** Count one logged row toward each window of its user and decision. */
    method RecordQueryVolume(user: string, decision: Decision, ghost at: nat)
      requires cache.Keys <= born.Keys
      modifies this`cache, this`alerts, this`born, this`peaks, this`alertLog
      ensures Gauge() == CountedAll(old(Gauge()), now, at, decision, user, WiresFor(wiring, decision), |WiresFor(wiring, decision)|)
    {
      var ws := WiresFor(wiring, decision);
      ghost var start := Gauge();
      for i := 0 to |ws|
        invariant start.cache.Keys <= start.born.Keys && cache.Keys <= born.Keys
        invariant Gauge() == CountedAll(start, now, at, decision, user, ws, i)
      {
        CountWire(Key(decision, ws[i].window, user), ws[i].threshold, at);
      }
    }

    method WriteAndCount(row: AuditRow, writes: bool)
      requires cache.Keys <= born.Keys
      modifies this
      ensures View() == Audited(wiring, old(View()), row, writes)
    {
      attempts := attempts + 1;
      if !writes { return; }
      log := log + [row];
      RecordQueryVolume(row.user, row.decision, |log| - 1);
    }

    /** Best-effort write of one audit row; only a row that was written is counted. */
    method AuditSafely(row: AuditRow, writes: bool)
      requires Sound()
      modifies this
      ensures Sound() && View() == Audited(wiring, old(View()), row, writes)
      ensures attempts == old(attempts) + 1 && log == old(log) + if writes then [row] else []
    {
      WriteAndCount(row, writes);
      AuditKeeps(wiring, old(View()), row, writes);
      ValidKeys(wiring, View());
    }
  }
}
