/** The per-request authentication of `/mcp/sql/`: the silent address block, the token lookup, and the
    chain of gates that re-checks everything the token's issue depended on. */
module Auth {
  import opened Prelude
  import Profiles
  import Throttle
  import Tokens

  datatype Gate = Application | Scope | ActiveStaff | Mfa | Permission | OneProfile | Session

  /** The gates in the order they are tried; a rejection row carries the gate's reason. */
  const CHAIN := [Application, Scope, ActiveStaff, Mfa, Permission, OneProfile, Session]

  datatype Policy = Policy(
    ids: Tokens.Identifiers,
    entries: seq<Tokens.ClientEntry>,
    profiles: seq<Profiles.Profile>,
    scope: string,
    sessionModel: bool)

  /** A token the lookup resolved, with what is true of its user now. */
  datatype Credential = Credential(
    token: Tokens.Token,
    scopes: set<string>,
    active: bool,
    staff: bool,
    mfa: bool,
    held: set<string>,
    session: bool)

  datatype Answer = Anonymous | Denied(gate: Gate) | Granted(profile: Profiles.Profile)

  datatype Rejection = Rejection(token: Tokens.Token, gate: Gate)

  predicate Passes(policy: Policy, c: Credential, gate: Gate) {
    match gate
    case Application => Tokens.IsMcpName(policy.ids, policy.entries, c.token.application)
    case Scope => policy.scope in c.scopes
    case ActiveStaff => c.active && c.staff
    case Mfa => c.mfa
    case Permission => !Profiles.Resolve(policy.profiles, c.held).NoPerm?
    case OneProfile => !Profiles.Resolve(policy.profiles, c.held).Ambiguous?
    case Session => policy.sessionModel ==> c.session
  }

  ghost predicate PassesBefore(policy: Policy, c: Credential, k: nat)
    requires k <= |CHAIN|
  {
    forall j | 0 <= j < k :: Passes(policy, c, CHAIN[j])
  }

  /** What the chain may answer: a denial at the first gate that fails, or a grant of the one profile when
      none does. */
  ghost predicate Verdict(policy: Policy, c: Credential, a: Answer) {
    || (exists k | 0 <= k < |CHAIN| :: a == Denied(CHAIN[k]) && !Passes(policy, c, CHAIN[k]) && PassesBefore(policy, c, k))
    || (a.Granted? && PassesBefore(policy, c, |CHAIN|) && Profiles.Resolve(policy.profiles, c.held) == Profiles.Bound(a.profile))
  }

  lemma DeniedAt(policy: Policy, c: Credential, k: nat)
    requires k < |CHAIN| && PassesBefore(policy, c, k) && !Passes(policy, c, CHAIN[k])
    ensures Verdict(policy, c, Denied(CHAIN[k]))
  {
  }

  lemma GrantedAtEnd(policy: Policy, c: Credential, profile: Profiles.Profile)
    requires PassesBefore(policy, c, |CHAIN|) && Profiles.Resolve(policy.profiles, c.held) == Profiles.Bound(profile)
    ensures Verdict(policy, c, Granted(profile))
  {
  }

  lemma OneGateMore(policy: Policy, c: Credential, k: nat)
    requires k < |CHAIN| && PassesBefore(policy, c, k) && Passes(policy, c, CHAIN[k])
    ensures PassesBefore(policy, c, k + 1)
  {
  }

  /** The chain has one answer, and grants exactly when every gate passes. */
  lemma VerdictDecides(policy: Policy, c: Credential, a: Answer, b: Answer)
    requires Verdict(policy, c, a) && Verdict(policy, c, b)
    ensures a == b
    ensures a.Granted? <==> forall gate :: Passes(policy, c, gate)
  {
    if a.Denied? && b.Denied? {
      var j :| 0 <= j < |CHAIN| && a == Denied(CHAIN[j]) && !Passes(policy, c, CHAIN[j]) && PassesBefore(policy, c, j);
      var k :| 0 <= k < |CHAIN| && b == Denied(CHAIN[k]) && !Passes(policy, c, CHAIN[k]) && PassesBefore(policy, c, k);
      assert j == k;
    }
    if a.Granted? {
      forall gate ensures Passes(policy, c, gate) {
        ChainIs();
      }
    }
  }

  /** Every answer of the chain by what is true of the token and its user: each denial says that what is
      checked before it held and its own condition did not, a grant that all of it held. */
  lemma AnswerExactly(policy: Policy, c: Credential, a: Answer)
    requires Verdict(policy, c, a)
    ensures var known := Tokens.IsMcpName(policy.ids, policy.entries, c.token.application);
            var scoped := known && policy.scope in c.scopes;
            var standing := scoped && c.active && c.staff;
            var strong := standing && c.mfa;
            var matched := Profiles.Matched(policy.profiles, c.held);
            && a != Anonymous
            && (a == Denied(Application) <==> !known)
            && (a == Denied(Scope) <==> known && policy.scope !in c.scopes)
            && (a == Denied(ActiveStaff) <==> scoped && !(c.active && c.staff))
            && (a == Denied(Mfa) <==> standing && !c.mfa)
            && (a == Denied(Permission) <==> strong && matched == {})
            && (a == Denied(OneProfile) <==> strong && |matched| > 1)
            && (a == Denied(Session) <==> strong && |matched| == 1 && policy.sessionModel && !c.session)
            && (a.Granted? <==> strong && |matched| == 1 && (policy.sessionModel ==> c.session))
  {
    ChainIs();
    ResolveCounts(policy, c);
    hide Tokens.IsMcpName, Profiles.Matched, Profiles.Resolve, CHAIN;
  }

  lemma ChainIs()
    ensures |CHAIN| == 7 && CHAIN[0] == Application && CHAIN[1] == Scope && CHAIN[2] == ActiveStaff && CHAIN[3] == Mfa
    ensures CHAIN[4] == Permission && CHAIN[5] == OneProfile && CHAIN[6] == Session
  {
  }

  lemma ResolveCounts(policy: Policy, c: Credential)
    ensures var matched := Profiles.Matched(policy.profiles, c.held);
            && (Profiles.Resolve(policy.profiles, c.held).NoPerm? <==> matched == {})
            && (Profiles.Resolve(policy.profiles, c.held).Ambiguous? <==> |matched| > 1)
            && (matched == {} <==> |matched| == 0)
  {
  }

  /** A granted user is in exactly one profile group, the granted profile's. */
  lemma GrantedFromOneGroup(policy: Policy, c: Credential, a: Answer, m: Profiles.Members)
    requires Profiles.ValidProfiles(policy.profiles)
    requires Profiles.HeldByGroup(policy.profiles, Profiles.GroupsOf(m, c.token.user), c.held)
    requires Verdict(policy, c, a) && a.Granted?
    ensures a.profile in policy.profiles
    ensures Profiles.Cohorts(policy.profiles, m, c.token.user) == {a.profile.entry.group}
  {
    var bound := Profiles.Assigned(policy.profiles, c.held);
    assert Profiles.Unique(policy.profiles, Profiles.Codename);
    Profiles.ResolveCountsProfiles(policy.profiles, c.held);
    Profiles.GroupImages(policy.profiles, m, c.token.user, c.held);
    assert bound == {a.profile};
    assert a.profile in bound;
  }

  /** After a logout whose deletion succeeded, a request of that user is granted only on a token issued by
      one of the later steps. */
  lemma GrantNeedsFreshToken(
    policy: Policy, c: Credential, a: Answer,
    s: Tokens.State, audits: bool, later: seq<Tokens.Step>)
    requires Tokens.Inv(s) && Verdict(policy, c, a) && a.Granted?
    requires var now := Tokens.Run(policy.ids, Tokens.Next(policy.ids, s, Tokens.Logout(c.token.user, true, audits)), later);
             c.token in now.tokens && policy.entries == now.entries
    ensures c.token.id >= s.issued
    ensures exists i | 0 <= i < |later| :: later[i] == Tokens.Issue(c.token.user, c.token.application)
  {
    assert CHAIN[0] == Application;
    assert Passes(policy, c, CHAIN[0]);
    Tokens.LogoutRevokesAcceptable(policy.ids, s, c.token.user, audits, later, c.token);
  }

  class Authenticator {
    const throttle: Throttle.Gate
    const settings: Tokens.Settings
    const profiles: seq<Profiles.Profile>
    const scope: string
    const sessionModel: bool
    var rejections: seq<Rejection>

    constructor (throttle: Throttle.Gate, settings: Tokens.Settings, profiles: seq<Profiles.Profile>, scope: string, sessionModel: bool)
      ensures this.throttle == throttle && this.settings == settings && this.profiles == profiles
      ensures this.scope == scope && this.sessionModel == sessionModel && rejections == []
    {
      this.throttle, this.settings, this.profiles, this.scope, this.sessionModel, rejections :=
        throttle, settings, profiles, scope, sessionModel, [];
    }

    ghost function PolicyNow(): Policy
      reads settings
    {
      Policy(settings.ids, settings.entries, profiles, scope, sessionModel)
    }

    /** The first gate that fails, or the profile to grant. */
    method FirstFailure(c: Credential) returns (a: Answer)
      requires settings.Fresh()
      modifies settings`clients
      ensures settings.Fresh() && Verdict(PolicyNow(), c, a)
    {
      ghost var policy := PolicyNow();
      ChainIs();
      assert PassesBefore(policy, c, 0);
      hide Tokens.IsMcpName, Profiles.Resolve, PassesBefore, Verdict;
      var known := settings.IsMcpApplicationName(c.token.application);
      if !known { DeniedAt(policy, c, 0); return Denied(Application); }
      OneGateMore(policy, c, 0);
      if scope !in c.scopes { DeniedAt(policy, c, 1); return Denied(Scope); }
      OneGateMore(policy, c, 1);
      if !(c.active && c.staff) { DeniedAt(policy, c, 2); return Denied(ActiveStaff); }
      OneGateMore(policy, c, 2);
      if !c.mfa { DeniedAt(policy, c, 3); return Denied(Mfa); }
      OneGateMore(policy, c, 3);
      var outcome := Profiles.Resolve(profiles, c.held);
      if outcome.NoPerm? { DeniedAt(policy, c, 4); return Denied(Permission); }
      OneGateMore(policy, c, 4);
      if outcome.Ambiguous? { DeniedAt(policy, c, 5); return Denied(OneProfile); }
      OneGateMore(policy, c, 5);
      if sessionModel {
        if !c.session { DeniedAt(policy, c, 6); return Denied(Session); }
      }
      OneGateMore(policy, c, 6);
      GrantedAtEnd(policy, c, outcome.profile);
      return Granted(outcome.profile);
    }

    /** The gates for a token that resolved; a denial writes the rejection row if the database takes it. */
    method CheckGates(c: Credential, audits: bool) returns (a: Answer)
      requires settings.Fresh()
      modifies this`rejections, settings`clients
      ensures settings.Fresh() && Verdict(PolicyNow(), c, a)
      ensures rejections == old(rejections) + if a.Denied? && audits then [Rejection(c.token, a.gate)] else []
    {
      hide Verdict;
      a := FirstFailure(c);
      if a.Denied? && audits { rejections := rejections + [Rejection(c.token, a.gate)]; }
    }

    /** One request. A blocked address is answered like a bad token, before any lookup and without a row;
        a bad token only moves the throttle; a resolved token gets the chain's verdict, and a row exactly
        when it is denied and the write succeeds. */
    method Authenticate(ip: string, hasHeader: bool, credential: Option<Credential>, audits: bool) returns (a: Answer)
      requires Throttle.ValidConfig(throttle.config) && settings.Fresh()
      modifies this`rejections, settings`clients, throttle`cache, throttle`warnings, throttle`done
      ensures settings.Fresh()
      ensures throttle.View() == Throttle.Step(throttle.config, old(throttle.View()), Throttle.Bearer(ip, hasHeader, credential.Some?))
      ensures var blocked := hasHeader && old(Throttle.Blocked(throttle.config, throttle.View(), Throttle.BAD_TOKEN, ip));
              if credential.None? || blocked then a == Anonymous else Verdict(PolicyNow(), credential.value, a)
      ensures rejections == old(rejections) + if a.Denied? && audits then [Rejection(credential.value.token, a.gate)] else []
    {
      var resolved := throttle.CheckBearer(ip, hasHeader, credential.Some?);
      if !resolved { return Anonymous; }
      a := CheckGates(credential.value, audits);
    }
  }
}
