/** Which OAuth applications belong to the gateway, and what a logout revokes.

    Tokens name the application they were issued to. A run issues tokens, logs users out and edits the
    CLOUD_CLIENTS setting; the identifiers APPLICATION_NAME and APPLICATION_NAME_PREFIX stay. */
module Tokens {
  import opened Prelude

  type User = nat

  datatype Identifiers = Identifiers(name: string, prefix: string)

  datatype ClientEntry = ClientEntry(name: string, redirectMatch: string, redirectUri: string)

  /** A cloud client as the settings object builds it. */
  datatype Client = Client(clientId: string, entry: ClientEntry)

  function CloudId(ids: Identifiers, name: string): string { ids.prefix + "cloud." + name }

  const SUFFIX_LENGTH: nat := 22

  /** The URL-safe base64 alphabet. */
  predicate UrlSafe(c: char) { 'A' <= c <= 'Z' || 'a' <= c <= 'z' || '0' <= c <= '9' || c == '_' || c == '-' }

  predicate MintedSuffix(s: string) { |s| == SUFFIX_LENGTH && forall c | c in s :: UrlSafe(c) }

  /** A dynamically registered client's name. */
  predicate Minted(ids: Identifiers, name: string) { ids.prefix <= name && MintedSuffix(name[|ids.prefix|..]) }

  predicate Declared(ids: Identifiers, entries: seq<ClientEntry>, name: string) {
    exists i | 0 <= i < |entries| :: name == CloudId(ids, entries[i].name)
  }

  /** The names the gateway accepts. */
  predicate IsMcpName(ids: Identifiers, entries: seq<ClientEntry>, name: string) {
    name == ids.name || Declared(ids, entries, name) || Minted(ids, name)
  }

  /** The names whose tokens a logout deletes. */
  predicate LogoutMatches(ids: Identifiers, name: string) { name == ids.name || ids.prefix <= name }

  /** The URL-safe alphabet of section 5 of RFC 4648, by value. */
  function Sextet(v: nat): char
    requires v < 64
  {
    if v < 26 then 'A' + v as char
    else if v < 52 then 'a' + (v - 26) as char
    else if v < 62 then '0' + (v - 52) as char
    else if v == 62 then '-' else '_'
  }

  ghost predicate InAlphabet(c: char) { exists v: nat :: v < 64 && Sextet(v) == c }

  /** Base64 without padding, as a new client's random bytes are written into its name. */
  function Base64(bs: seq<nat>): string
    requires Bytes(bs)
  {
    if |bs| < 3 then Rest64(bs) else Quad(bs[0], bs[1], bs[2]) + Base64(bs[3..])
  }

  ghost predicate Bytes(bs: seq<nat>) { forall i | 0 <= i < |bs| :: bs[i] < 256 }

  function Quad(a: nat, b: nat, c: nat): string
    requires a < 256 && b < 256 && c < 256
  {
    [Sextet(a / 4), Sextet(a % 4 * 16 + b / 16), Sextet(b % 16 * 4 + c / 64), Sextet(c % 64)]
  }

  function Rest64(bs: seq<nat>): string
    requires |bs| < 3 && Bytes(bs)
  {
    if bs == [] then []
    else if |bs| == 1 then [Sextet(bs[0] / 4), Sextet(bs[0] % 4 * 16)]
    else [Sextet(bs[0] / 4), Sextet(bs[0] % 4 * 16 + bs[1] / 16), Sextet(bs[1] % 16 * 4)]
  }

  lemma QuadVectors()
    ensures Rest64([102]) == "Zg" && Rest64([102, 111]) == "Zm8" && Rest64([]) == ""
    ensures Quad(102, 111, 111) == "Zm9v" && Quad(98, 97, 114) == "YmFy"
  {
  }

  /** The vectors of section 10 of RFC 4648. */
  lemma Base64Vectors()
    ensures Base64([102]) == "Zg" && Base64([102, 111]) == "Zm8" && Base64([102, 111, 111]) == "Zm9v"
    ensures Base64([102, 111, 111, 98, 97, 114]) == "Zm9v" + "YmFy"
  {
    QuadVectors();
    hide Quad, Rest64, Sextet;
    var foo: seq<nat>, bar: seq<nat>, both: seq<nat> := [102, 111, 111], [98, 97, 114], [102, 111, 111, 98, 97, 114];
    assert foo[3..] == [] && bar[3..] == [] && both[3..] == bar;
    assert Base64(bar) == "YmFy" + "";
  }

  lemma SextetSafe(v: nat)
    requires v < 64
    ensures UrlSafe(Sextet(v))
  {
  }

  lemma SafeListed(c: char)
    ensures UrlSafe(c) <==> InAlphabet(c)
  {
    if 'A' <= c <= 'Z' { assert Sextet(c as int - 'A' as int) == c; }
    if 'a' <= c <= 'z' { assert Sextet(c as int - 'a' as int + 26) == c; }
    if '0' <= c <= '9' { assert Sextet(c as int - '0' as int + 52) == c; }
    if c == '-' { assert Sextet(62) == c; }
    if c == '_' { assert Sextet(63) == c; }
    if InAlphabet(c) {
      var v: nat :| v < 64 && Sextet(v) == c;
      SextetSafe(v);
    }
  }

  lemma {:induction false} Base64Shape(bs: seq<nat>)
    requires Bytes(bs)
    ensures |Base64(bs)| == |bs| / 3 * 4 + (if |bs| % 3 == 0 then 0 else |bs| % 3 + 1)
    ensures forall c | c in Base64(bs) :: UrlSafe(c)
  {
    forall v: nat | v < 64 ensures UrlSafe(Sextet(v)) { SextetSafe(v); }
    hide Sextet, UrlSafe;
    if |bs| >= 3 { Base64Shape(bs[3..]); }
  }

  /** Every name registration mints, whatever its sixteen random bytes, is accepted. */
  lemma MintedNamesAccepted(ids: Identifiers, entries: seq<ClientEntry>, bs: seq<nat>)
    requires |bs| == 16 && Bytes(bs)
    ensures IsMcpName(ids, entries, ids.prefix + Base64(bs))
  {
    Base64Shape(bs);
    var suffix := Base64(bs);
    hide Base64, UrlSafe;
    assert (ids.prefix + suffix)[|ids.prefix|..] == suffix;
  }

  /** The name is the prefix and 22 characters of the alphabet. */
  ghost predicate Looks(ids: Identifiers, name: string) {
    exists suffix :: name == ids.prefix + suffix && |suffix| == 22 && forall c | c in suffix :: InAlphabet(c)
  }

  lemma MintedLooks(ids: Identifiers, name: string)
    ensures Minted(ids, name) <==> Looks(ids, name)
  {
    forall c ensures UrlSafe(c) <==> InAlphabet(c) { SafeListed(c); }
    hide UrlSafe, InAlphabet;
    if Minted(ids, name) { assert name == ids.prefix + name[|ids.prefix|..]; }
    if Looks(ids, name) {
      var suffix :| name == ids.prefix + suffix && |suffix| == 22 && forall c | c in suffix :: InAlphabet(c);
      assert name[|ids.prefix|..] == suffix;
    }
  }

  /** What is accepted: the canonical name, the ids of declared cloud clients, and names of the minted shape. */
  lemma AcceptedExactly(ids: Identifiers, entries: seq<ClientEntry>, name: string)
    ensures IsMcpName(ids, entries, name) <==>
              || name == ids.name
              || (exists i | 0 <= i < |entries| :: name == ids.prefix + "cloud." + entries[i].name)
              || Looks(ids, name)
  {
    MintedLooks(ids, name);
    hide Minted, Looks;
  }

  /** The gateway's own names by their text: the canonical one, and whatever the prefix begins. */
  ghost predicate OfGateway(ids: Identifiers, name: string) { name == ids.name || exists rest :: name == ids.prefix + rest }

  lemma MatchesGateway(ids: Identifiers, name: string)
    ensures LogoutMatches(ids, name) <==> OfGateway(ids, name)
  {
    if ids.prefix <= name { assert name == ids.prefix + name[|ids.prefix|..]; }
  }

  /** Logout reaches every name that can be accepted, under whatever CLOUD_CLIENTS. */
  lemma AcceptedIsRevocable(ids: Identifiers, entries: seq<ClientEntry>, name: string)
    requires IsMcpName(ids, entries, name)
    ensures LogoutMatches(ids, name)
  {
    if Declared(ids, entries, name) {
      var i :| 0 <= i < |entries| && name == CloudId(ids, entries[i].name);
      assert name == ids.prefix + ("cloud." + entries[i].name);
    }
  }

  lemma CloudNeverMinted(ids: Identifiers, name: string)
    ensures !Minted(ids, CloudId(ids, name))
  {
    var id := CloudId(ids, name);
    var suffix := "cloud." + name;
    assert id == ids.prefix + suffix;
    assert id[|ids.prefix|..] == suffix;
    assert suffix[5] == '.' && !UrlSafe('.');
  }

  lemma CloudIdInjective(ids: Identifiers, a: string, b: string)
    requires CloudId(ids, a) == CloudId(ids, b)
    ensures a == b
  {
    var n := |ids.prefix| + 6;
    assert CloudId(ids, a)[n..] == a && CloudId(ids, b)[n..] == b;
  }

  /** A cloud client is accepted exactly while it is declared, or if its id is the canonical name. */
  lemma CloudAcceptedIffDeclared(ids: Identifiers, entries: seq<ClientEntry>, name: string)
    ensures IsMcpName(ids, entries, CloudId(ids, name)) <==>
              CloudId(ids, name) == ids.name || exists i | 0 <= i < |entries| :: entries[i].name == name
  {
    CloudNeverMinted(ids, name);
    if Declared(ids, entries, CloudId(ids, name)) {
      var i :| 0 <= i < |entries| && CloudId(ids, name) == CloudId(ids, entries[i].name);
      CloudIdInjective(ids, name, entries[i].name);
    }
  }

  // ----- runs -----

  datatype Token = Token(id: nat, user: User, application: string)

  datatype Revocation = Revocation(user: User, count: nat)

  datatype State = State(tokens: set<Token>, issued: nat, entries: seq<ClientEntry>, log: seq<Revocation>)

  datatype Step =
    | Issue(user: User, application: string)
    | Logout(user: User, deletes: bool, audits: bool)
    | Edit(entries: seq<ClientEntry>)

  function Hit(ids: Identifiers, s: State, user: User): set<Token> {
    set t | t in s.tokens && t.user == user && LogoutMatches(ids, t.application)
  }

  /** `deletes` and `audits` say whether the two database writes succeed. */
  function Next(ids: Identifiers, s: State, step: Step): State {
    match step
    case Issue(user, application) => s.(tokens := s.tokens + {Token(s.issued, user, application)}, issued := s.issued + 1)
    case Edit(entries) => s.(entries := entries)
    case Logout(user, deletes, audits) =>
      var hit := Hit(ids, s, user);
      if !deletes || hit == {} then s
      else s.(tokens := s.tokens - hit, log := if audits then s.log + [Revocation(user, |hit|)] else s.log)
  }

  function Run(ids: Identifiers, s: State, steps: seq<Step>): State
    decreases |steps|
  {
    if steps == [] then s else Next(ids, Run(ids, s, steps[..|steps| - 1]), steps[|steps| - 1])
  }

  /** The application gate of the bearer check; the remaining gates only deny more. */
  predicate Authenticates(ids: Identifiers, s: State, t: Token) { t in s.tokens && IsMcpName(ids, s.entries, t.application) }

  /** Token ids are those issued so far, each once. */
  ghost predicate Inv(s: State) {
    (forall t | t in s.tokens :: t.id < s.issued) && forall t, u | t in s.tokens && u in s.tokens && t.id == u.id :: t == u
  }

  lemma {:induction false} RunKeepsInv(ids: Identifiers, s: State, steps: seq<Step>)
    requires Inv(s)
    ensures Inv(Run(ids, s, steps)) && s.issued <= Run(ids, s, steps).issued
    decreases |steps|
  {
    if steps != [] { RunKeepsInv(ids, s, steps[..|steps| - 1]); }
  }

  /** A token present after a run was there before it or was issued by one of its steps. */
  lemma {:induction false} TokensComeFromIssue(ids: Identifiers, s: State, steps: seq<Step>, t: Token)
    requires t in Run(ids, s, steps).tokens && t !in s.tokens
    ensures exists i | 0 <= i < |steps| :: steps[i] == Issue(t.user, t.application) && Run(ids, s, steps[..i]).issued == t.id
    decreases |steps|
  {
    if steps != [] {
      var n := |steps| - 1;
      if t in Run(ids, s, steps[..n]).tokens {
        TokensComeFromIssue(ids, s, steps[..n], t);
        var i :| 0 <= i < n && steps[..n][i] == Issue(t.user, t.application) && Run(ids, s, steps[..n][..i]).issued == t.id;
        assert steps[..n][..i] == steps[..i] && steps[i] == steps[..n][i];
      } else {
        assert steps[n] == Issue(t.user, t.application);
      }
    }
  }

  /** After a logout whose deletion succeeded, and any later steps, a token authenticates its user only if
      one of those later steps issued it. */
  lemma LogoutRevokesAcceptable(ids: Identifiers, s: State, user: User, audits: bool, later: seq<Step>, t: Token)
    requires Inv(s) && t.user == user
    requires Authenticates(ids, Run(ids, Next(ids, s, Logout(user, true, audits)), later), t)
    ensures t !in s.tokens && t.id >= s.issued
    ensures exists i | 0 <= i < |later| :: later[i] == Issue(user, t.application)
  {
    var out := Next(ids, s, Logout(user, true, audits));
    AcceptedIsRevocable(ids, Run(ids, out, later).entries, t.application);
    assert t !in out.tokens;
    TokensComeFromIssue(ids, out, later, t);
    var i :| 0 <= i < |later| && later[i] == Issue(user, t.application) && Run(ids, out, later[..i]).issued == t.id;
    RunKeepsInv(ids, out, later[..i]);
  }

  /** The run logs the token's user out, and the deletion succeeds. */
  ghost predicate LoggedOut(steps: seq<Step>, user: User) {
    exists i | 0 <= i < |steps| :: steps[i].Logout? && steps[i].user == user && steps[i].deletes
  }

  /** Over any run a token is lost exactly if its user is logged out and its application is the gateway's:
      nothing else a user or an operator does deletes it. */
  lemma {:induction false} LostOnlyByLogout(ids: Identifiers, s: State, steps: seq<Step>, t: Token)
    requires Inv(s) && t in s.tokens
    ensures t in Run(ids, s, steps).tokens <==> !(OfGateway(ids, t.application) && LoggedOut(steps, t.user))
    decreases |steps|
  {
    MatchesGateway(ids, t.application);
    hide LogoutMatches, OfGateway;
    if steps != [] {
      var n := |steps| - 1;
      var some, last := steps[..n], steps[n];
      RunKeepsInv(ids, s, some);
      LostOnlyByLogout(ids, s, some, t);
      LoggedOutSnoc(some, last, t.user);
      assert steps == some + [last];
    }
  }

  /** One logout: the user's tokens of the gateway go and no other, and a deletion leaves one row with the
      user and the number deleted if the audit write succeeds. */
  lemma LogoutExactly(ids: Identifiers, s: State, user: User, deletes: bool, audits: bool)
    ensures var e := Next(ids, s, Logout(user, deletes, audits));
            && (forall t :: t in e.tokens <==> t in s.tokens && !(deletes && t.user == user && OfGateway(ids, t.application)))
            && e.issued == s.issued && e.entries == s.entries
            && e.log == s.log + if audits && |e.tokens| < |s.tokens| then [Revocation(user, |s.tokens| - |e.tokens|)] else []
  {
    hide Hit, OfGateway, LogoutMatches;
    HitExactly(ids, s, user);
    WithoutSize(s.tokens, Hit(ids, s, user));
  }

  lemma HitExactly(ids: Identifiers, s: State, user: User)
    ensures Hit(ids, s, user) <= s.tokens
    ensures forall t :: t in Hit(ids, s, user) <==> t in s.tokens && t.user == user && OfGateway(ids, t.application)
  {
    forall t: Token ensures LogoutMatches(ids, t.application) <==> OfGateway(ids, t.application) { MatchesGateway(ids, t.application); }
    hide LogoutMatches, OfGateway;
  }

  lemma WithoutSize<T>(all: set<T>, some: set<T>)
    requires some <= all
    ensures |all - some| == |all| - |some| && (some == {} <==> |some| == 0)
  {
    assert all == (all - some) + some;
    assert |(all - some) + some| == |all - some| + |some|;
  }

  lemma LoggedOutSnoc(steps: seq<Step>, last: Step, user: User)
    ensures LoggedOut(steps + [last], user) <==> LoggedOut(steps, user) || (last.Logout? && last.user == user && last.deletes)
  {
    if LoggedOut(steps, user) {
      var i :| 0 <= i < |steps| && steps[i].Logout? && steps[i].user == user && steps[i].deletes;
      assert (steps + [last])[i] == steps[i];
    }
    assert (steps + [last])[|steps|] == last;
  }

  /** Taking a cloud client out of the settings shuts out its outstanding tokens at once, whatever else
      stays declared. */
  lemma RemovalShutsOut(ids: Identifiers, s: State, kept: seq<ClientEntry>, name: string, t: Token)
    requires t.application == CloudId(ids, name) && t.application != ids.name
    requires forall i | 0 <= i < |kept| :: kept[i].name != name
    ensures !Authenticates(ids, Next(ids, s, Edit(kept)), t)
  {
    CloudAcceptedIffDeclared(ids, kept, name);
  }

  function Deleted(log: seq<Revocation>): nat {
    if log == [] then 0 else Deleted(log[..|log| - 1]) + log[|log| - 1].count
  }

  /** When every audit write succeeds, each token ever issued is live or counted in the log. */
  lemma {:induction false} EveryTokenAccounted(ids: Identifiers, s: State, steps: seq<Step>)
    requires forall i | 0 <= i < |steps| && steps[i].Logout? :: steps[i].audits
    requires Inv(s)
    ensures var e := Run(ids, s, steps); |e.tokens| + Deleted(e.log) - e.issued == |s.tokens| + Deleted(s.log) - s.issued
    ensures s.tokens == {} && s.issued == 0 && s.log == [] ==> var e := Run(ids, s, steps); |e.tokens| + Deleted(e.log) == e.issued
    decreases |steps|
  {
    if steps != [] {
      var before, step := Run(ids, s, steps[..|steps| - 1]), steps[|steps| - 1];
      assert forall i | 0 <= i < |steps| - 1 :: steps[..|steps| - 1][i] == steps[i];
      EveryTokenAccounted(ids, s, steps[..|steps| - 1]);
      RunKeepsInv(ids, s, steps[..|steps| - 1]);
      OneStepAccounted(ids, before, step);
    }
  }

  lemma OneStepAccounted(ids: Identifiers, s: State, step: Step)
    requires Inv(s) && (step.Logout? ==> step.audits)
    ensures var e := Next(ids, s, step); |e.tokens| + Deleted(e.log) - e.issued == |s.tokens| + Deleted(s.log) - s.issued
  {
    match step
    case Issue(user, application) => assert Token(s.issued, user, application) !in s.tokens;
    case Edit(_) =>
    case Logout(user, _, _) => LogoutAccounted(ids, s, user);
  }

  lemma LogoutAccounted(ids: Identifiers, s: State, user: User)
    ensures var hit := Hit(ids, s, user);
            |s.tokens - hit| + Deleted(s.log + [Revocation(user, |hit|)]) == |s.tokens| + Deleted(s.log)
  {
    var hit := Hit(ids, s, user);
    assert hit <= s.tokens;
    hide Hit;
    WithoutSize(s.tokens, hit);
    assert (s.log + [Revocation(user, |hit|)])[..|s.log|] == s.log;
  }

  // ----- the settings object and the token table -----

  function Built(ids: Identifiers, entries: seq<ClientEntry>): map<string, Client> {
    if entries == [] then map[]
    else
      var e := entries[|entries| - 1];
      Built(ids, entries[..|entries| - 1])[CloudId(ids, e.name) := Client(CloudId(ids, e.name), e)]
  }

  /** The table of cloud clients has the declared ids as its keys, each under its own id. */
  lemma {:induction false} BuiltDeclares(ids: Identifiers, entries: seq<ClientEntry>, name: string)
    ensures name in Built(ids, entries) <==> Declared(ids, entries, name)
    ensures name in Built(ids, entries) ==> Built(ids, entries)[name].clientId == name && Built(ids, entries)[name].entry in entries
  {
    if entries != [] {
      var some, e := entries[..|entries| - 1], entries[|entries| - 1];
      BuiltDeclares(ids, some, name);
      DeclaredSnoc(ids, some, e, name);
      assert entries == some + [e];
      hide Declared, CloudId;
      assert Built(ids, entries) == Built(ids, some)[CloudId(ids, e.name) := Client(CloudId(ids, e.name), e)];
    }
  }

  lemma DeclaredSnoc(ids: Identifiers, some: seq<ClientEntry>, e: ClientEntry, name: string)
    ensures Declared(ids, some + [e], name) <==> Declared(ids, some, name) || name == CloudId(ids, e.name)
  {
    hide CloudId;
    var entries := some + [e];
    if name == CloudId(ids, e.name) { assert name == CloudId(ids, entries[|some|].name); }
    if Declared(ids, some, name) {
      var i :| 0 <= i < |some| && name == CloudId(ids, some[i].name);
      assert name == CloudId(ids, entries[i].name);
    }
    if Declared(ids, entries, name) && name != CloudId(ids, e.name) {
      var i :| 0 <= i < |entries| && name == CloudId(ids, entries[i].name);
      assert name == CloudId(ids, some[i].name);
    }
  }

  /** With distinct names no entry overwrites another. */
  lemma {:induction false} DistinctNamesKept(ids: Identifiers, entries: seq<ClientEntry>, i: nat)
    requires i < |entries| && forall j, k | 0 <= j < k < |entries| :: entries[j].name != entries[k].name
    ensures var id := CloudId(ids, entries[i].name);
            id in Built(ids, entries) && Built(ids, entries)[id] == Client(id, entries[i])
  {
    var n := |entries| - 1;
    if i < n {
      DistinctNamesKept(ids, entries[..n], i);
      if CloudId(ids, entries[i].name) == CloudId(ids, entries[n].name) { CloudIdInjective(ids, entries[i].name, entries[n].name); }
    }
  }

  /** The cached view of the CLOUD_CLIENTS setting. */
  class Settings {
    const ids: Identifiers
    var entries: seq<ClientEntry>
    var clients: Option<map<string, Client>>

    constructor (ids: Identifiers, entries: seq<ClientEntry>)
      ensures this.ids == ids && this.entries == entries && Fresh()
    {
      this.ids, this.entries, clients := ids, entries, None;
    }

    /** The cache, when filled, is that of the present setting. */
    ghost predicate Fresh()
      reads this
    {
      clients.Some? ==> clients.value == Built(ids, entries)
    }

    method CloudClients() returns (built: map<string, Client>)
      requires Fresh()
      modifies this`clients
      ensures Fresh() && built == Built(ids, entries) && clients == Some(built)
    {
      if clients.Some? { return clients.value; }
      built := map[];
      for i := 0 to |entries|
        invariant built == Built(ids, entries[..i])
      {
        var id := CloudId(ids, entries[i].name);
        assert entries[..i + 1][..i] == entries[..i];
        built := built[id := Client(id, entries[i])];
      }
      assert entries[..|entries|] == entries;
      clients := Some(built);
    }

    /** Changing the setting discards what was read from it. */
    method Change(entries: seq<ClientEntry>)
      modifies this
      ensures Fresh() && this.entries == entries
    {
      this.entries := entries;
      clients := None;
    }

    method IsMcpApplicationName(name: string) returns (known: bool)
      requires Fresh()
      modifies this`clients
      ensures Fresh() && known == IsMcpName(ids, entries, name)
    {
      if name == ids.name { return true; }
      var built := CloudClients();
      BuiltDeclares(ids, entries, name);
      if name in built { return true; }
      return ids.prefix <= name && MintedSuffix(name[|ids.prefix|..]);
    }
  }

  class TokenTable {
    const ids: Identifiers
    var tokens: set<Token>
    var issued: nat
    var log: seq<Revocation>

    constructor (ids: Identifiers)
      ensures this.ids == ids && View([]) == State({}, 0, [], [])
    {
      this.ids := ids;
      tokens, issued, log := {}, 0, [];
    }

    ghost function View(entries: seq<ClientEntry>): State
      reads this
    {
      State(tokens, issued, entries, log)
    }

    method IssueToken(user: User, application: string) returns (t: Token)
      modifies this
      ensures forall entries :: View(entries) == Next(ids, old(View(entries)), Issue(user, application))
      ensures t == Token(old(issued), user, application)
    {
      t := Token(issued, user, application);
      tokens, issued := tokens + {t}, issued + 1;
    }

    /** Delete what the filter matches; audit only if something was deleted, and only best effort. */
    method RevokeAndAuditOnLogout(user: User, deletes: bool, audits: bool)
      modifies this`tokens, this`log
      ensures forall entries :: View(entries) == Next(ids, old(View(entries)), Logout(user, deletes, audits))
    {
      if !deletes { return; }
      var hit := set t | t in tokens && t.user == user && LogoutMatches(ids, t.application);
      tokens := tokens - hit;
      if |hit| == 0 { return; }
      if audits { log := log + [Revocation(user, |hit|)]; }
    }
  }
}
