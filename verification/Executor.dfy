/** The audited pipeline behind `run_query`. */
module Executor {
  import opened Prelude
  import opened SqlTree
  import opened SqlEval
  import opened SqlRun
  import opened SqlValidator
  import opened SqlSafety
  import opened Observability
  import opened Capping

  datatype Limits = Limits(default: int, hard: int, bytes: int)

  /** What startup validation requires of the configured limits. */
  predicate ValidLimits(l: Limits) { l.default > 0 && l.hard > 0 && l.bytes > 0 && l.default <= l.hard }

  datatype Request = Request(user: string, profile: string, raw: string, limit: Option<int>)

  datatype Hook = NoHook | HookReturns | HookFails(message: string)

  datatype DbOutcome = Fetched(rows: seq<Cells>) | DbFails(sqlstate: Option<string>, message: string)

  /** Everything a call meets outside the code: configuration, the parser, the hook, the database as a
      function of the query sent to it, whether the audit write succeeds, and the validator's message. */
  datatype Surroundings = Surroundings(aliasConfigured: bool, parse: Parse, serializable: bool, rewrapSerializable: bool,
                                       aliasMatches: bool, hook: Hook, db: Node -> DbOutcome, auditWrites: bool, detail: string)

  datatype QueryResult = QueryResult(rows: seq<Cells>, rowCount: nat, truncated: bool, reason: Option<Reason>, error: string)

  datatype Outcome = Returned(result: QueryResult) | Raised(message: string)

  const QUERY_CANCELED: string := "57014"

  const TOO_DEEP: string := "SQL nesting is too deep to serialize"

  function Rejection(reason: Reason, error: string): QueryResult { QueryResult([], 0, false, Some(reason), error) }

  function ClassifyDbError(sqlstate: Option<string>): Reason {
    if sqlstate == Some(QUERY_CANCELED) then Timeout else ExecutionError
  }

  // ----- how many rows are asked for, and how many are fetched -----

  /** The smaller of the tool's limit and the literal LIMIT in the statement. */
  function ExplicitLimit(tool: Option<int>, sql: Option<int>): Option<int> {
    if tool.None? then sql else if sql.None? then tool else Some(Min(tool.value, sql.value))
  }

  function EffectiveLimit(l: Limits, explicit: Option<int>): nat {
    Max(0, Min(if explicit.Some? then explicit.value else l.default, l.hard))
  }

  /** The server's own cap was binding and cut the result. */
  predicate CutByCount(l: Limits, explicit: Option<int>, fetched: nat) {
    !(explicit.Some? && explicit.value <= l.hard) && fetched > EffectiveLimit(l, explicit)
  }

  /** What the caller asked for: the result without its root LIMIT, cut at the explicit limit if any. */
  function Asked(full: seq<Cells>, explicit: Option<int>): seq<Cells> {
    if explicit.None? then full else Take(full, Max(0, explicit.value))
  }

  /** The database answers the statement with any injected limit by a prefix of `full`. */
  ghost predicate Respects(db: Node -> DbOutcome, q: Node, full: seq<Cells>)
    requires IsQuery(q)
  {
    forall k: nat :: db(InjectLimit(q, k)) == Fetched(Take(full, k))
  }

  /** The rows are the capped image of a prefix of what was asked for, no longer than the server allows,
      and the flag says exactly whether rows are missing. */
  ghost predicate Exact(f: Format, l: Limits, rows: seq<Cells>, truncated: bool, asked: seq<Cells>) {
    && |rows| <= |asked| && |rows| <= l.hard
    && rows == CapAll(f, asked[..|rows|])
    && (truncated <==> |rows| < |asked|)
  }

  /** Every limit that was given leaves room for more than `n` rows. */
  predicate Wants(n: int, tool: Option<int>, literal: Option<int>) {
    (tool.Some? ==> n < tool.value) && (literal.Some? ==> n < literal.value)
  }

  /** `k` is the smallest of the hard limit and the limits given, or the default when none is. */
  predicate Smallest(l: Limits, tool: Option<int>, literal: Option<int>, k: int) {
    && k <= l.hard && (tool.Some? ==> k <= tool.value) && (literal.Some? ==> k <= literal.value)
    && (tool.None? && literal.None? ==> k == l.default)
    && (tool.Some? || literal.Some? ==> k == l.hard || tool == Some(k) || literal == Some(k))
  }

  /** There are more than `n` rows, and every limit that applies leaves room for another. */
  predicate HasRoom(l: Limits, tool: Option<int>, literal: Option<int>, full: seq<Cells>, n: nat) {
    n < |full| && n < l.hard && Wants(n, tool, literal) && (tool.None? && literal.None? ==> n < l.default)
  }

  /** What the caller gets of the rows `full`, in the caller's terms: capped images of the first of them,
      within every limit, as many as the limits and the byte cap leave room for, and a flag that says
      whether rows asked for are missing. */
  ghost predicate Delivered(f: Format, l: Limits, tool: Option<int>, literal: Option<int>, full: seq<Cells>, rows: seq<Cells>,
                            truncated: bool) {
    && |rows| <= |full| && |rows| <= l.hard && rows == CapAll(f, full[..|rows|])
    && (rows != [] ==> Wants(|rows| - 1, tool, literal))
    && (tool.None? && literal.None? ==> |rows| <= l.default)
    && (truncated <==> |rows| < |full| && Wants(|rows|, tool, literal))
    && (|rows| > 1 ==> SizeSum(f, rows) <= l.bytes)
    && (HasRoom(l, tool, literal, full, |rows|) ==> rows != [] && SizeSum(f, CapAll(f, full[..|rows| + 1])) > l.bytes)
  }

  /** The clamp computes the smallest limit, and asks for rows exactly when every limit given does. */
  lemma ClampIsSmallest(l: Limits, tool: Option<int>, literal: Option<int>)
    requires ValidLimits(l)
    ensures var k := EffectiveLimit(l, ExplicitLimit(tool, literal));
            (k > 0 <==> Wants(0, tool, literal)) && (k > 0 ==> Smallest(l, tool, literal, k))
  {
  }

  /** Fetching one row more than the effective limit is enough to tell whether the asked rows are all there. */
  lemma FetchDecides(l: Limits, explicit: Option<int>, full: seq<Cells>)
    requires ValidLimits(l)
    ensures var eff := EffectiveLimit(l, explicit);
            var raw := Take(full, eff + 1);
            var kept := Take(raw, eff);
            && kept <= Asked(full, explicit) && |kept| <= l.hard
            && (CutByCount(l, explicit, |raw|) <==> |kept| < |Asked(full, explicit)|)
  {
  }

  /** The truncation flag is exact: `k` rows survive the byte cap. */
  lemma TruncationExact(f: Format, l: Limits, explicit: Option<int>, full: seq<Cells>, k: nat)
    requires ValidLimits(l)
    requires var kept := Take(Take(full, EffectiveLimit(l, explicit) + 1), EffectiveLimit(l, explicit)); k <= |kept|
    ensures var raw := Take(full, EffectiveLimit(l, explicit) + 1);
            var kept := Take(raw, EffectiveLimit(l, explicit));
            Exact(f, l, CapAll(f, kept[..k]), CutByCount(l, explicit, |raw|) || k < |kept|, Asked(full, explicit))
  {
    FetchDecides(l, explicit, full);
    var kept := Take(Take(full, EffectiveLimit(l, explicit) + 1), EffectiveLimit(l, explicit));
    assert kept[..k] == Asked(full, explicit)[..k];
  }

  /** Of the rows up to the effective limit, the longest part that fits under the byte cap. */
  ghost predicate Filled(f: Format, l: Limits, effective: nat, full: seq<Cells>, rows: seq<Cells>) {
    && |rows| <= |full| && |rows| <= effective
    && (|rows| > 1 ==> SizeSum(f, rows) <= l.bytes)
    && (|rows| < |full| && |rows| < effective ==> rows != [] && SizeSum(f, CapAll(f, full[..|rows| + 1])) > l.bytes)
  }

  lemma LongestIsFilled(f: Format, l: Limits, effective: nat, full: seq<Cells>, kept: seq<Cells>, rows: seq<Cells>)
    requires kept == Take(Take(full, effective + 1), effective) && |rows| <= |kept| && rows == CapAll(f, kept[..|rows|])
    requires Capping.Fits(f, kept, l.bytes, |rows|) && (forall k | |rows| < k <= |kept| :: !Capping.Fits(f, kept, l.bytes, k))
    requires kept != [] ==> rows != []
    ensures Filled(f, l, effective, full, rows)
  {
    assert kept == Take(full, effective);
    if |rows| < |kept| {
      assert !Capping.Fits(f, kept, l.bytes, |rows| + 1);
      assert kept[..|rows| + 1] == full[..|rows| + 1];
    }
  }

  /** In terms of what was asked for, what is returned is what the caller is promised. */
  lemma Handover(f: Format, l: Limits, tool: Option<int>, literal: Option<int>, full: seq<Cells>, rows: seq<Cells>, truncated: bool)
    requires ValidLimits(l)
    requires Exact(f, l, rows, truncated, Asked(full, ExplicitLimit(tool, literal)))
    requires Filled(f, l, EffectiveLimit(l, ExplicitLimit(tool, literal)), full, rows)
    ensures Delivered(f, l, tool, literal, full, rows, truncated)
  {
    hide CapAll, SizeSum;
    var asked := Asked(full, ExplicitLimit(tool, literal));
    assert asked[..|rows|] == full[..|rows|];
  }

  lemma BareTake(r: Rel, k: nat)
    ensures Bare(Take(r, k)) == Take(Bare(r), k)
  {
  }

  /** A server with honest deny lists answers every wrapping of an accepted statement by a prefix of one
      result, and leaves its world alone, so it may be treated as a function of the query. What is asked
      for is then the statement's own answer cut at the tool's limit. */
  lemma ServerRespects(p: Policy, q: Node, s: Server, fuel: nat, w: World, db: Node -> DbOutcome)
    requires Accepts(p, q) && Honest(s, p.deny)
    requires forall n :: db(n) == Fetched(Bare(Run(s, fuel, w, n).v))
    ensures Respects(db, q, Bare(Answer(s.lib, w.tables, Unlimited(q))))
    ensures forall k: nat :: Run(s, fuel, w, InjectLimit(q, k)).w == w
    ensures ExtractLimit(q).Some? ==>
              Asked(Bare(Answer(s.lib, w.tables, Unlimited(q))), ExtractLimit(q)) == Bare(Answer(s.lib, w.tables, q))
  {
    var all := Answer(s.lib, w.tables, Unlimited(q));
    forall k: nat ensures db(InjectLimit(q, k)) == Fetched(Take(Bare(all), k)) && Run(s, fuel, w, InjectLimit(q, k)).w == w {
      ExecutionOnlyReads(p, q, s, fuel, w, k);
      BareTake(all, k);
    }
    if ExtractLimit(q).Some? {
      InjectedLimitCuts(s.lib, w.tables, q, 0);
      BareTake(all, Max(0, ExtractLimit(q).value));
    }
  }

  // ----- what a call must leave behind -----

  /** The audit row tells the same story as the outcome. */
  ghost predicate Tells(row: AuditRow, req: Request, o: Outcome) {
    && row.user == req.user && row.profile == req.profile && row.raw == req.raw
    && match o
       case Raised(message) =>
         && row.decision == Rejected && row.reason == Some(Misconfigured) && row.error == message
         && row.rowCount == 0 && row.resultBytes == 0 && !row.truncated
       case Returned(r) =>
         && row.reason == r.reason && row.error == r.error && row.truncated == r.truncated
         && row.rowCount == r.rowCount == |r.rows|
         && (row.decision == Allowed <==> r.reason.None? || r.reason == Some(Timeout) || r.reason == Some(ExecutionError))
         && (r.reason.Some? ==> r.rows == [] && !r.truncated && row.resultBytes == 0)
  }

  /** The statement passes the validator. */
  ghost predicate Passes(p: Policy, s: Surroundings) {
    s.aliasConfigured && SoleQuery(s.parse).Ok? && Accepts(p, SoleQuery(s.parse).value) && s.serializable
  }

  /** Neither the tool's limit nor the statement's own asks for no rows at all. */
  predicate AsksForRows(req: Request, ast: Node)
    requires IsQuery(ast)
  {
    Wants(0, req.limit, ExtractLimit(ast))
  }

  /** It also asks for rows, and serializes again with its injected limit. */
  ghost predicate Prepared(p: Policy, req: Request, s: Surroundings) {
    Passes(p, s) && AsksForRows(req, SoleQuery(s.parse).value) && s.rewrapSerializable
  }

  /** It is sent to the database. */
  ghost predicate Sends(p: Policy, req: Request, s: Surroundings) {
    Prepared(p, req, s) && s.aliasMatches && !s.hook.HookFails?
  }

  /** The statement as it is sent: its LIMIT is one more than the smallest limit that applies. */
  ghost predicate Wraps(l: Limits, req: Request, ast: Node, sent: Node)
    requires IsQuery(ast)
  {
    && IsQuery(sent) && ExtractLimit(sent).Some? && sent == InjectLimit(ast, ExtractLimit(sent).value)
    && Smallest(l, req.limit, ExtractLimit(ast), ExtractLimit(sent).value - 1)
  }

  /** What the caller gets of any rows the database may hold for the statement. */
  ghost predicate Returns(f: Format, l: Limits, req: Request, db: Node -> DbOutcome, ast: Node, r: QueryResult)
    requires IsQuery(ast)
  {
    forall full | Respects(db, ast, full) :: Delivered(f, l, req.limit, ExtractLimit(ast), full, r.rows, r.truncated)
  }

  /** A timeout is reported exactly when the database cancelled the statement, an execution error exactly
      when it failed it in another way, and the database's message comes with either. */
  ghost predicate Classifies(s: Surroundings, sent: Option<Node>, o: Outcome) {
    var failed := sent.Some? && s.db(sent.value).DbFails?;
    && (o.Returned? && o.result.reason == Some(Timeout) <==> failed && s.db(sent.value).sqlstate == Some("57014"))
    && (o.Returned? && o.result.reason == Some(ExecutionError) <==> failed && s.db(sent.value).sqlstate != Some("57014"))
    && (failed ==> o.Returned? && o.result.error == s.db(sent.value).message && o.result.rows == [])
  }

  /** Why the validator's refusal is returned: the parse outcome, a node at fault, or a tree too deep. */
  ghost predicate Refuses(p: Policy, s: Surroundings, o: Outcome) {
    match SoleQuery(s.parse)
    case Failed(reason) => o == Returned(Rejection(reason, s.detail))
    case Ok(q) =>
      && (!Accepts(p, q) ==> o.Returned? && o.result.reason.Some? && o == Returned(Rejection(o.result.reason.value, s.detail))
                             && AtFault(p, q, o.result.reason.value))
      && (Accepts(p, q) && !s.serializable ==> o == Returned(Rejection(ParseError, s.detail)))
  }

  /** Why a statement that passed the validator is not sent. */
  ghost predicate Stops(p: Policy, req: Request, s: Surroundings, o: Outcome)
    requires Passes(p, s)
  {
    && (AsksForRows(req, SoleQuery(s.parse).value) && !s.rewrapSerializable ==> o == Returned(Rejection(ParseError, TOO_DEEP)))
    && (Prepared(p, req, s) && s.aliasMatches && s.hook.HookFails? ==> o == Returned(Rejection(Misconfigured, s.hook.message)))
  }

  class Runner {
    const policy: Policy
    const limits: Limits
    const format: Format
    const trail: AuditTrail

    constructor (policy: Policy, limits: Limits, format: Format, trail: AuditTrail)
      requires ValidLimits(limits)
      ensures this.policy == policy && this.limits == limits && this.format == format && this.trail == trail
    {
      this.policy := policy;
      this.limits := limits;
      this.format := format;
      this.trail := trail;
    }

    /** Validate, execute and audit one statement. Whatever happens there is one audit attempt, its row
        tells what was returned, and it carries the query if one was sent. */
    method RunQuery(req: Request, s: Surroundings) returns (o: Outcome, row: AuditRow, sent: Option<Node>)
      requires ValidLimits(limits) && trail.Sound()
      modifies trail
      ensures trail.Sound() && trail.attempts == old(trail.attempts) + 1
      ensures trail.log == old(trail.log) + if s.auditWrites then [row] else []
      ensures trail.View() == Audited(trail.wiring, old(trail.View()), row, s.auditWrites)
      ensures Tells(row, req, o)
      ensures sent.Some? <==> Sends(policy, req, s)
      ensures sent.Some? ==> row.wrapped == sent
      ensures row.wrapped.Some? <==> Prepared(policy, req, s) && s.aliasMatches
      ensures row.wrapped.Some? ==> Wraps(limits, req, SoleQuery(s.parse).value, row.wrapped.value)
      ensures row.normalized == if Passes(policy, s) && o.Returned? then Some(SoleQuery(s.parse).value) else None
      ensures o.Raised? <==> !s.aliasConfigured || (Prepared(policy, req, s) && !s.aliasMatches)
      ensures s.aliasConfigured ==> Refuses(policy, s, o)
      ensures s.aliasConfigured && s.parse.Statements? && Several(s.parse.trees) ==> o == Returned(Rejection(MultiStatement, s.detail))
      ensures Passes(policy, s) ==> Stops(policy, req, s, o)
      ensures Classifies(s, sent, o)
      ensures o.Returned? && o.result.reason.None? <==>
                || (Passes(policy, s) && !AsksForRows(req, SoleQuery(s.parse).value))
                || (sent.Some? && s.db(sent.value).Fetched?)
      ensures o.Returned? && o.result.reason.None? ==>
                && Returns(format, limits, req, s.db, SoleQuery(s.parse).value, o.result)
                && row.resultBytes == SizeSum(format, o.result.rows)
    {
      hide Accepts, Returns, Respects, Audited, Tells, Valid, Visit, InjectLimit, ExtractLimit, Stops, Wraps, SizeSum, AsksForRows,
           Several, Alone, Absent, AloneAt, AtFault, Referenced;
      if !s.aliasConfigured {
        o, row := Misconfigure(req, s, "readonly alias absent");
        return o, row, None;
      }
      var parsed := ParseAndValidate(policy, s.parse, s.serializable);
      if parsed.Failed? {
        o, row := Reject(req, s, parsed.error, s.detail, None, None);
        return o, row, None;
      }
      o, row, sent := RunParsed(req, s, parsed.value.ast);
    }

    /** Everything after validation: clamp, wrap, check the alias, call the hook, execute. */
    method RunParsed(req: Request, s: Surroundings, ast: Node) returns (o: Outcome, row: AuditRow, sent: Option<Node>)
      requires ValidLimits(limits) && trail.Sound() && Passes(policy, s) && ast == SoleQuery(s.parse).value
      modifies trail
      ensures trail.Sound() && trail.attempts == old(trail.attempts) + 1
      ensures trail.log == old(trail.log) + if s.auditWrites then [row] else []
      ensures trail.View() == Audited(trail.wiring, old(trail.View()), row, s.auditWrites)
      ensures Tells(row, req, o)
      ensures sent.Some? <==> Sends(policy, req, s)
      ensures sent.Some? ==> row.wrapped == sent
      ensures row.wrapped.Some? <==> Prepared(policy, req, s) && s.aliasMatches
      ensures row.wrapped.Some? ==> Wraps(limits, req, ast, row.wrapped.value)
      ensures row.normalized == if o.Returned? then Some(ast) else None
      ensures o.Raised? <==> Prepared(policy, req, s) && !s.aliasMatches
      ensures Stops(policy, req, s, o)
      ensures Classifies(s, sent, o)
      ensures o.Returned? && o.result.reason.None? <==> !AsksForRows(req, ast) || (sent.Some? && s.db(sent.value).Fetched?)
      ensures o.Returned? && o.result.reason.None? ==>
                && Returns(format, limits, req, s.db, ast, o.result)
                && row.resultBytes == SizeSum(format, o.result.rows)
    {
      hide Returns, Respects, Audited, Accepts, Valid, InjectLimit, EffectiveLimit, ExplicitLimit, ExtractLimit, ClassifyDbError,
           Wraps, SizeSum, AsksForRows;
      sent := None;
      var explicit := ExplicitLimit(req.limit, ExtractLimit(ast));
      var effective := EffectiveLimit(limits, explicit);
      EffectiveAsks(limits, req, ast);
      if effective == 0 {
        row := AuditRow(req.user, req.profile, Allowed, None, req.raw, Some(ast), None, 0, false, 0, "");
        trail.AuditSafely(row, s.auditWrites);
        NothingAsked(format, limits, req, s.db, ast);
        return Returned(QueryResult([], 0, false, None, "")), row, None;
      }
      if !s.rewrapSerializable {
        o, row := Reject(req, s, ParseError, TOO_DEEP, Some(ast), None);
        return;
      }
      if !s.aliasMatches {
        o, row := Misconfigure(req, s, "alias resolved to a different one");
        return;
      }
      if s.hook.HookFails? {
        o, row := Reject(req, s, Misconfigured, s.hook.message, Some(ast), Some(InjectLimit(ast, effective + 1)));
        return;
      }
      o, row := Fetch(req, s, ast);
      sent := Some(InjectLimit(ast, effective + 1));
    }

    /** Send the wrapped statement, cap what comes back, and log it. */
    method Fetch(req: Request, s: Surroundings, ast: Node) returns (o: Outcome, row: AuditRow)
      requires ValidLimits(limits) && trail.Sound() && IsQuery(ast)
      modifies trail
      ensures trail.Sound() && trail.attempts == old(trail.attempts) + 1
      ensures trail.log == old(trail.log) + if s.auditWrites then [row] else []
      ensures trail.View() == Audited(trail.wiring, old(trail.View()), row, s.auditWrites)
      ensures Tells(row, req, o) && o.Returned?
      ensures var wrapped := InjectLimit(ast, EffectiveLimit(limits, ExplicitLimit(req.limit, ExtractLimit(ast))) + 1);
              && row.normalized == Some(ast) && row.wrapped == Some(wrapped)
              && (o.result.reason.None? <==> s.db(wrapped).Fetched?)
              && Classifies(s, Some(wrapped), o)
      ensures o.result.reason.None? ==>
                Returns(format, limits, req, s.db, ast, o.result) && row.resultBytes == SizeSum(format, o.result.rows)
    {
      hide Returns, Respects, Audited, Valid, InjectLimit, CapAll, Take, CutByCount, EffectiveLimit, SizeSum;
      var explicit := ExplicitLimit(req.limit, ExtractLimit(ast));
      var effective := EffectiveLimit(limits, explicit);
      var wrapped := InjectLimit(ast, effective + 1);
      match s.db(wrapped)
      case DbFails(sqlstate, message) =>
        var reason := ClassifyDbError(sqlstate);
        row := AuditRow(req.user, req.profile, Allowed, Some(reason), req.raw, Some(ast), Some(wrapped), 0, false, 0, message);
        trail.AuditSafely(row, s.auditWrites);
        o := Returned(Rejection(reason, message));
      case Fetched(raw) =>
        hide ClassifyDbError;
        var r, bytes := CapFetched(req, s, ast, raw);
        row := AuditRow(req.user, req.profile, Allowed, None, req.raw, Some(ast), Some(wrapped), r.rowCount, r.truncated, bytes, "");
        trail.AuditSafely(row, s.auditWrites);
        o := Returned(r);
    }

    /** Drop the row fetched beyond the limit, cap the cells and the payload, and flag what is missing. */
    method CapFetched(req: Request, s: Surroundings, ast: Node, raw: seq<Cells>) returns (r: QueryResult, bytes: nat)
      requires ValidLimits(limits) && IsQuery(ast)
      requires s.db(InjectLimit(ast, EffectiveLimit(limits, ExplicitLimit(req.limit, ExtractLimit(ast))) + 1)) == Fetched(raw)
      ensures r.reason.None? && r.error == "" && r.rowCount == |r.rows| && bytes == SizeSum(format, r.rows)
      ensures Returns(format, limits, req, s.db, ast, r)
    {
      hide Returns, InjectLimit, CapAll, Take, CutByCount, EffectiveLimit, SizeSum;
      var explicit := ExplicitLimit(req.limit, ExtractLimit(ast));
      var kept := Take(raw, EffectiveLimit(limits, explicit));
      var capped, total, byBytes := CapRows(format, kept, limits.bytes);
      r, bytes := QueryResult(capped, |capped|, CutByCount(limits, explicit, |raw|) || byBytes, None, ""), total;
      FetchedReturns(format, limits, req, s.db, ast, raw, r);
    }

    /** Log an operator error and raise it. */
    method Misconfigure(req: Request, s: Surroundings, message: string) returns (o: Outcome, row: AuditRow)
      requires trail.Sound()
      modifies trail
      ensures trail.Sound() && trail.attempts == old(trail.attempts) + 1
      ensures trail.log == old(trail.log) + if s.auditWrites then [row] else []
      ensures trail.View() == Audited(trail.wiring, old(trail.View()), row, s.auditWrites)
      ensures o == Raised(message) && Tells(row, req, o) && row.normalized.None? && row.wrapped.None?
    {
      var r := AuditRow(req.user, req.profile, Rejected, Some(Misconfigured), req.raw, None, None, 0, false, 0, message);
      trail.AuditSafely(r, s.auditWrites);
      return Raised(message), r;
    }

    /** Log a refusal and return it. */
    method Reject(req: Request, s: Surroundings, reason: Reason, error: string, normalized: Option<Node>, wrapped: Option<Node>)
      returns (o: Outcome, row: AuditRow)
      requires trail.Sound() && reason != Timeout && reason != ExecutionError
      modifies trail
      ensures trail.Sound() && trail.attempts == old(trail.attempts) + 1
      ensures trail.log == old(trail.log) + if s.auditWrites then [row] else []
      ensures trail.View() == Audited(trail.wiring, old(trail.View()), row, s.auditWrites)
      ensures o == Returned(Rejection(reason, error)) && Tells(row, req, o)
      ensures row.normalized == normalized && row.wrapped == wrapped
    {
      var r := AuditRow(req.user, req.profile, Rejected, Some(reason), req.raw, normalized, wrapped, 0, false, 0, error);
      trail.AuditSafely(r, s.auditWrites);
      return Returned(Rejection(reason, error)), r;
    }
  }

  /** What was kept of the fetched rows is what the caller is promised of all of them. */
  lemma FetchedReturns(f: Format, l: Limits, req: Request, db: Node -> DbOutcome, ast: Node, raw: seq<Cells>, r: QueryResult)
    requires ValidLimits(l) && IsQuery(ast)
    requires var effective := EffectiveLimit(l, ExplicitLimit(req.limit, ExtractLimit(ast)));
             var kept := Take(raw, effective);
             && db(InjectLimit(ast, effective + 1)) == Fetched(raw)
             && |r.rows| <= |kept| && r.rows == CapAll(f, kept[..|r.rows|]) && (kept != [] ==> r.rows != [])
             && Capping.Fits(f, kept, l.bytes, |r.rows|) && (forall k | |r.rows| < k <= |kept| :: !Capping.Fits(f, kept, l.bytes, k))
             && (r.truncated <==> CutByCount(l, ExplicitLimit(req.limit, ExtractLimit(ast)), |raw|) || |r.rows| < |kept|)
    ensures Returns(f, l, req, db, ast, r)
  {
    hide Exact, Filled, Delivered, Capping.Fits, CapAll;
    var explicit := ExplicitLimit(req.limit, ExtractLimit(ast));
    forall full | Respects(db, ast, full) ensures Delivered(f, l, req.limit, ExtractLimit(ast), full, r.rows, r.truncated) {
      TruncationExact(f, l, explicit, full, |r.rows|);
      LongestIsFilled(f, l, EffectiveLimit(l, explicit), full, Take(raw, EffectiveLimit(l, explicit)), r.rows);
      Handover(f, l, req.limit, ExtractLimit(ast), full, r.rows, r.truncated);
    }
  }

  lemma NothingAsked(f: Format, l: Limits, req: Request, db: Node -> DbOutcome, ast: Node)
    requires ValidLimits(l) && IsQuery(ast) && !AsksForRows(req, ast)
    ensures Returns(f, l, req, db, ast, QueryResult([], 0, false, None, "")) && SizeSum(f, []) == 0
  {
  }

  lemma EffectiveAsks(l: Limits, req: Request, ast: Node)
    requires ValidLimits(l) && IsQuery(ast)
    ensures var k := EffectiveLimit(l, ExplicitLimit(req.limit, ExtractLimit(ast)));
            (k == 0 <==> !AsksForRows(req, ast)) && (k > 0 ==> Wraps(l, req, ast, InjectLimit(ast, k + 1)))
  {
    ClampIsSmallest(l, req.limit, ExtractLimit(ast));
  }
}
