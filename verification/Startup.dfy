/** The settings checks run once at startup, proved to establish what the other modules assume of their
    configuration. Profiles are checked in `Profiles`; parsed URLs are as in `Redirect`. */
module Startup {
  import opened Prelude
  import Executor
  import Observability
  import Patterns
  import Redirect
  import Throttle
  import Tokens

  const DEFAULT_LIMIT := "DEFAULT_LIMIT"
  const HARD_LIMIT := "HARD_LIMIT"
  const BYTES_LIMIT := "BYTES_LIMIT"

  /** The keys the settings schema demands. */
  predicate Shaped(limits: map<string, int>) { DEFAULT_LIMIT in limits && HARD_LIMIT in limits && BYTES_LIMIT in limits }

  function LimitsOf(limits: map<string, int>): Executor.Limits
    requires Shaped(limits)
  {
    Executor.Limits(limits[DEFAULT_LIMIT], limits[HARD_LIMIT], limits[BYTES_LIMIT])
  }

  /** Accepts exactly positive limits with the default within the hard limit, which is what the executor
      assumes. */
  method ValidateLimits(limits: map<string, int>) returns (ok: bool)
    requires Shaped(limits)
    ensures ok <==> (forall k | k in limits :: limits[k] > 0) && limits[DEFAULT_LIMIT] <= limits[HARD_LIMIT]
    ensures ok ==> Executor.ValidLimits(LimitsOf(limits))
  {
    var todo := limits.Keys;
    while todo != {}
      invariant todo <= limits.Keys
      invariant forall k | k in limits && k !in todo :: limits[k] > 0
      decreases |todo|
    {
      var k :| k in todo;
      if limits[k] <= 0 { return false; }
      todo := todo - {k};
    }
    return limits[DEFAULT_LIMIT] <= limits[HARD_LIMIT];
  }

  /** The tripwires of one decision, as the counters walk them, list the configured table. */
  ghost predicate Lists(ws: seq<Observability.Wire>, table: map<int, int>) {
    && (forall i | 0 <= i < |ws| :: ws[i].window in table && table[ws[i].window] == ws[i].threshold)
    && forall i, j | 0 <= i < j < |ws| :: ws[i].window != ws[j].window
  }

  /** Windows and thresholds are positive. */
  ghost predicate PositiveTable(table: map<int, int>) { forall w | w in table :: w > 0 && table[w] > 0 }

  method ValidateWindows(table: map<int, int>) returns (ok: bool)
    ensures ok <==> PositiveTable(table)
  {
    var todo := table.Items;
    while todo != {}
      invariant todo <= table.Items
      invariant forall w | w in table && (w, table[w]) !in todo :: w > 0 && table[w] > 0
      decreases |todo|
    {
      var item :| item in todo;
      if item.0 <= 0 || item.1 <= 0 { return false; }
      todo := todo - {item};
    }
    return true;
  }

  const DECISIONS := {"allowed", "rejected"}

  /** Accepts exactly tables of known decisions and positive numbers; their tripwires then meet what the
      volume counters assume. */
  method ValidateVolumeAlertThresholds(tables: map<string, map<int, int>>) returns (ok: bool)
    ensures ok <==> forall d | d in tables :: (d == "allowed" || d == "rejected") && forall w | w in tables[d] :: w > 0 && tables[d][w] > 0
    ensures ok ==> forall d, ws | d in tables && Lists(ws, tables[d]) :: Observability.ValidWires(ws)
  {
    var todo := tables.Keys;
    while todo != {}
      invariant todo <= tables.Keys
      invariant forall d | d in tables && d !in todo :: d in DECISIONS && PositiveTable(tables[d])
      decreases |todo|
    {
      var d :| d in todo;
      if d !in DECISIONS { return false; }
      var positive := ValidateWindows(tables[d]);
      if !positive { return false; }
      todo := todo - {d};
    }
    return true;
  }

  /** The throttle settings as the counters meet them: a count is never below zero, and a lifetime below
      zero has run out like one of zero. */
  function ThrottleOf(threshold: int, window: int): Throttle.Config { Throttle.Config(Max(0, threshold), Max(0, window)) }

  /** Accepts exactly the settings with which the throttle lets someone register and bounds everyone. */
  method ValidateThrottle(threshold: int, window: int) returns (ok: bool)
    ensures ok <==> Throttle.Throttles(ThrottleOf(threshold, window))
    ensures ok ==> Throttle.ValidConfig(ThrottleOf(threshold, window)) && ThrottleOf(threshold, window) == Throttle.Config(threshold, window)
  {
    Throttle.ThrottlesIffValid(ThrottleOf(threshold, window));
    if threshold <= 0 { return false; }
    return window > 0;
  }

  // ----- cloud clients -----

  const EXACT := "exact"
  const PREFIX := "prefix"

  /** A CLOUD_CLIENTS entry with its redirect URI parsed. */
  datatype CloudSetting = CloudSetting(name: string, kind: string, text: string, url: Redirect.Url)

  datatype Problem = Scheme | Userinfo | Host | Wildcard | DotDot | RootPath | NoSlash

  function StripSlashes(p: string): string
    decreases |p|
  {
    if p == [] then p else if p[0] == '/' then StripSlashes(p[1..]) else if p[|p| - 1] == '/' then StripSlashes(p[..|p| - 1]) else p
  }

  /** The fault `p` names is one of this entry. */
  predicate Has(u: Redirect.Utf8, e: CloudSetting, p: Problem) {
    match p
    case Scheme => e.url.scheme != "https"
    case Userinfo => e.url.username != "" || e.url.password != ""
    case Host => e.url.hostname == ""
    case Wildcard => '*' in e.text
    case DotDot => !Redirect.Flat(Redirect.Decode(u, e.url.path))
    case RootPath => e.kind == PREFIX && StripSlashes(e.url.path) == ""
    case NoSlash => e.kind == PREFIX && !Redirect.EndsInSlash(e.url.path)
  }

  /** Every fault of a redirect URI is reported, and nothing else. */
  method ValidateCloudRedirectUri(u: Redirect.Utf8, e: CloudSetting) returns (problems: seq<Problem>)
    ensures forall p :: p in problems <==> Has(u, e, p)
  {
    problems := GeneralProblems(u, e);
    hide Redirect.Flat, Redirect.Decode, StripSlashes;
    if e.kind == PREFIX && StripSlashes(e.url.path) == "" { problems := problems + [RootPath]; }
    if e.kind == PREFIX && !Redirect.EndsInSlash(e.url.path) { problems := problems + [NoSlash]; }
  }

  /** The faults any redirect URI may have. */
  method GeneralProblems(u: Redirect.Utf8, e: CloudSetting) returns (problems: seq<Problem>)
    ensures forall p :: p in problems <==> Has(u, e, p) && !p.RootPath? && !p.NoSlash?
  {
    hide Redirect.Flat, Redirect.Decode, StripSlashes;
    problems := [];
    if e.url.scheme != "https" { problems := problems + [Scheme]; }
    if e.url.username != "" || e.url.password != "" { problems := problems + [Userinfo]; }
    if e.url.hostname == "" { problems := problems + [Host]; }
    if '*' in e.text { problems := problems + [Wildcard]; }
    if !Redirect.Flat(Redirect.Decode(u, e.url.path)) { problems := problems + [DotDot]; }
  }

  predicate Slug(s: string) {
    s != "" && 'a' <= s[0] <= 'z' && forall c | c in s :: 'a' <= c <= 'z' || '0' <= c <= '9' || c == '-'
  }

  ghost predicate Sound(u: Redirect.Utf8, e: CloudSetting) {
    Slug(e.name) && e.kind in {EXACT, PREFIX} && forall p :: !Has(u, e, p)
  }

  const SLUG := [Patterns.One([('a', 'z')]), Patterns.Many([('a', 'z'), ('0', '9'), ('-', '-')])]

  lemma SlugMatches(s: string)
    ensures Slug(s) <==> Patterns.Match(SLUG, s)
  {
    var head, tail := [('a', 'z')], [('a', 'z'), ('0', '9'), ('-', '-')];
    Patterns.MatchHeadTail(head, tail, s);
    assert head[0] == ('a', 'z') && tail[0] == ('a', 'z') && tail[1] == ('0', '9') && tail[2] == ('-', '-');
    hide Patterns.Match;
    forall c ensures Patterns.InRanges(c, tail) <==> 'a' <= c <= 'z' || '0' <= c <= '9' || c == '-' {
    }
    if s != "" {
      assert Patterns.InRanges(s[0], head) <==> 'a' <= s[0] <= 'z';
      hide Patterns.InRanges;
      assert s == [s[0]] + s[1..];
      assert forall c :: c in s <==> c == s[0] || c in s[1..];
      assert Patterns.All(s[1..], tail) <==> forall c | c in s[1..] :: Patterns.InRanges(c, tail);
    }
  }

  lemma {:induction false} OnlySlashes(p: string)
    ensures StripSlashes(p) == "" <==> forall c | c in p :: c == '/'
    decreases |p|
  {
    if p != "" {
      var n := |p| - 1;
      if p[0] == '/' {
        OnlySlashes(p[1..]);
        assert forall c :: c in p <==> c == p[0] || c in p[1..];
      } else if p[n] == '/' {
        OnlySlashes(p[..n]);
        assert p[0] in p && p[0] in p[..n];
      } else {
        assert p[0] in p;
      }
    }
  }

  /** A sound cloud client, by the settings' own rules: a slug for a name, and an https redirect with a host,
      no userinfo, no wildcard and no segment that decodes to `..`; a prefix also has a path that names
      something and ends in a slash. */
  lemma SoundExactly(u: Redirect.Utf8, e: CloudSetting)
    ensures Sound(u, e) <==>
              && Patterns.Match(SLUG, e.name) && (e.kind == "exact" || e.kind == "prefix")
              && e.url.scheme == "https" && e.url.username == "" && e.url.password == "" && e.url.hostname != ""
              && (forall c | c in e.text :: c != '*') && !Redirect.HasSegment(Redirect.Decode(u, e.url.path), "..")
              && (e.kind == "prefix" ==> (exists c :: c in e.url.path && c != '/') && Redirect.EndsInSlash(e.url.path))
  {
    SlugMatches(e.name);
    OnlySlashes(e.url.path);
    Redirect.FlatMeansNoDotDot(Redirect.Decode(u, e.url.path));
    hide Redirect.HasSegment, Redirect.Flat, Redirect.Decode, StripSlashes, Slug, Patterns.Match;
    if forall p :: !Has(u, e, p) {
      assert !Has(u, e, Scheme) && !Has(u, e, Userinfo) && !Has(u, e, Host) && !Has(u, e, Wildcard) && !Has(u, e, DotDot)
          && !Has(u, e, RootPath) && !Has(u, e, NoSlash);
    }
  }

  ghost predicate AllSound(u: Redirect.Utf8, es: seq<CloudSetting>) {
    (forall i | 0 <= i < |es| :: Sound(u, es[i])) && forall i, j | 0 <= i < j < |es| :: es[i].name != es[j].name
  }

  method ValidateCloudClients(u: Redirect.Utf8, es: seq<CloudSetting>, httpsAllowed: bool) returns (ok: bool)
    ensures ok <==> AllSound(u, es) && (es != [] ==> httpsAllowed)
  {
    var seen: set<string> := {};
    for i := 0 to |es|
      invariant AllSound(u, es[..i]) && seen == set j | 0 <= j < i :: es[j].name
    {
      var e := es[i];
      assert es[..i + 1] == es[..i] + [e];
      if !Slug(e.name) { assert !Sound(u, es[i]); return false; }
      if e.name in seen { return false; }
      seen := seen + {e.name};
      if e.kind !in {EXACT, PREFIX} { assert !Sound(u, es[i]); return false; }
      var problems := ValidateCloudRedirectUri(u, e);
      if problems != [] {
        assert problems[0] in problems && !Sound(u, es[i]);
        return false;
      }
      assert Sound(u, e);
    }
    assert es[..|es|] == es;
    return es == [] || httpsAllowed;
  }

  function EntriesOf(es: seq<CloudSetting>): seq<Tokens.ClientEntry> {
    seq(|es|, i requires 0 <= i < |es| => Tokens.ClientEntry(es[i].name, es[i].kind, es[i].text))
  }

  /** Of validated clients each is found under its own id: none overwrites another. */
  lemma ValidatedClientsKept(u: Redirect.Utf8, es: seq<CloudSetting>, ids: Tokens.Identifiers, i: nat)
    requires AllSound(u, es) && i < |es|
    ensures var id, entries := Tokens.CloudId(ids, es[i].name), EntriesOf(es);
            id in Tokens.Built(ids, entries) && Tokens.Built(ids, entries)[id] == Tokens.Client(id, entries[i])
  {
    Tokens.DistinctNamesKept(ids, EntriesOf(es), i);
  }

  /** A redirect admitted under a validated prefix client goes to the host the operator wrote, below the
      path the operator wrote, without dot segments between. */
  lemma AdmittedUnderValidatedPrefix(u: Redirect.Utf8, e: CloudSetting, got: Option<Redirect.Url>, k: nat)
    requires Sound(u, e) && e.kind == PREFIX && Redirect.Admits(u, got, Some(e.url)) && k <= 5
    ensures got.value.scheme == "https" && got.value.hostname == e.url.hostname != ""
    ensures StartsWith(got.value.path, e.url.path) && Redirect.EndsInSlash(e.url.path)
    ensures Redirect.Flat(Redirect.Layers(u, got.value.path, k))
    ensures StartsWith(Redirect.RemoveDots(Redirect.Layers(u, got.value.path, k), ""),
                                Redirect.RemoveDots(Redirect.Layers(u, e.url.path, k), ""))
  {
    assert !Has(u, e, NoSlash) && !Has(u, e, Host);
    Redirect.FlatBelow(u, got.value.path, k, 5);
    Redirect.RedirectContained(u, got, Some(e.url), k);
  }

  /** Validation decodes a prefix once, the redirect check five times: a validated prefix client admits
      some redirect exactly if its own path has no `..` after five. */
  lemma PrefixClientUsable(u: Redirect.Utf8, e: CloudSetting)
    requires Sound(u, e) && e.kind == PREFIX
    ensures (exists got :: Redirect.Admits(u, got, Some(e.url))) <==> Redirect.Flat(Redirect.Layers(u, e.url.path, 5))
  {
    hide Redirect.Flat, Redirect.Layers;
    assert !Has(u, e, Scheme) && !Has(u, e, Userinfo) && !Has(u, e, Host) && !Has(u, e, NoSlash);
    if Redirect.Flat(Redirect.Layers(u, e.url.path, 5)) {
      assert Redirect.Admits(u, Some(e.url), Some(e.url));
    }
    if got :| Redirect.Admits(u, got, Some(e.url)) { Redirect.PrefixFlat(u, got.value.path, e.url.path, 5); }
  }
}
