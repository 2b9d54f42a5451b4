/** Access profiles: what settings validation accepts, which profile a user resolves to, and the alerts
    raised when users are put into profile groups.

    Profiles are listed in the order of the settings dictionary, whose keys keep their names distinct. */
module Profiles {
  import opened Prelude
  import opened Patterns

  type User = nat
  type Group = string

  datatype Field = Role | Codename | GroupName

  datatype Entry = Entry(role: string, codename: string, group: Group, models: seq<string>, hookImports: bool)

  datatype Profile = Profile(name: string, entry: Entry)

  function Value(p: Profile, f: Field): string {
    match f
    case Role => p.entry.role
    case Codename => p.entry.codename
    case GroupName => p.entry.group
  }

  const FIELDS := [Role, Codename, GroupName]

  lemma FieldListed(f: Field)
    ensures exists j | 0 <= j < |FIELDS| :: FIELDS[j] == f
  {
    assert FIELDS[0] == Role && FIELDS[1] == Codename && FIELDS[2] == GroupName;
    match f
    case Role =>
    case Codename =>
    case GroupName =>
  }

  // ----- validation -----

  predicate Letter(c: char) { 'a' <= c <= 'z' || 'A' <= c <= 'Z' }
  predicate Digit(c: char) { '0' <= c <= '9' }

  /** An unquoted Postgres identifier. */
  predicate Identifier(s: string) {
    s != "" && (Letter(s[0]) || s[0] == '_') && forall i | 0 <= i < |s| :: Letter(s[i]) || Digit(s[i]) || s[i] == '_'
  }

  predicate AppLabel(s: string) {
    s != "" && 'a' <= s[0] <= 'z' && forall c | c in s :: 'a' <= c <= 'z' || Digit(c) || c == '_'
  }

  predicate ModelName(s: string) {
    |s| > 1 && 'A' <= s[0] <= 'Z' && forall i | 1 <= i < |s| :: Letter(s[i]) || Digit(s[i]) || s[i] == '_'
  }

  /** `app_label.ModelName`. */
  predicate ModelRef(s: string) {
    exists dot | 0 <= dot < |s| :: s[dot] == '.' && AppLabel(s[..dot]) && ModelName(s[dot + 1..])
  }

  // ----- the shapes are those of the settings' regular expressions -----

  const SMALL: Class := [('a', 'z')]
  const CAPITAL: Class := [('A', 'Z')]
  const DOT: Class := [('.', '.')]
  const LETTER_: Class := [('A', 'Z'), ('a', 'z'), ('_', '_')]
  const WORD: Class := [('A', 'Z'), ('a', 'z'), ('0', '9'), ('_', '_')]
  const SMALL_WORD: Class := [('a', 'z'), ('0', '9'), ('_', '_')]

  const PG_IDENTIFIER := [One(LETTER_), Many(WORD)]

  const MODEL_NAME := [One(CAPITAL), One(WORD), Many(WORD)]

  const MODEL_REF := [One(SMALL), Many(SMALL_WORD), One(DOT)] + MODEL_NAME

  lemma ClassesOf(c: char)
    ensures InRanges(c, SMALL) <==> 'a' <= c <= 'z'
    ensures InRanges(c, CAPITAL) <==> 'A' <= c <= 'Z'
    ensures InRanges(c, DOT) <==> c == '.'
    ensures InRanges(c, LETTER_) <==> Letter(c) || c == '_'
    ensures InRanges(c, WORD) <==> Letter(c) || Digit(c) || c == '_'
    ensures InRanges(c, SMALL_WORD) <==> 'a' <= c <= 'z' || Digit(c) || c == '_'
  {
    assert SMALL[0] == ('a', 'z') && CAPITAL[0] == ('A', 'Z') && DOT[0] == ('.', '.');
    assert LETTER_[0] == ('A', 'Z') && LETTER_[1] == ('a', 'z') && LETTER_[2] == ('_', '_');
    assert WORD[0] == ('A', 'Z') && WORD[1] == ('a', 'z') && WORD[2] == ('0', '9') && WORD[3] == ('_', '_');
    assert SMALL_WORD[0] == ('a', 'z') && SMALL_WORD[1] == ('0', '9') && SMALL_WORD[2] == ('_', '_');
  }

  /** Roles are unquoted Postgres identifiers, as `^[A-Za-z_][A-Za-z0-9_]*$` says. */
  lemma IdentifierMatches(s: string)
    ensures Identifier(s) <==> Match(PG_IDENTIFIER, s)
  {
    MatchHeadTail(LETTER_, WORD, s);
    forall c ensures InRanges(c, WORD) <==> Letter(c) || Digit(c) || c == '_' { ClassesOf(c); }
    if s != "" { ClassesOf(s[0]); }
    hide InRanges, Match, Letter, Digit;
    if s != "" && All(s[1..], WORD) { assert forall i | 1 <= i < |s| :: s[i] == s[1..][i - 1]; }
  }

  lemma AppLabelMatches(s: string)
    ensures AppLabel(s) <==> Match([One(SMALL), Many(SMALL_WORD)], s)
  {
    MatchHeadTail(SMALL, SMALL_WORD, s);
    forall c ensures InRanges(c, SMALL_WORD) <==> 'a' <= c <= 'z' || Digit(c) || c == '_' { ClassesOf(c); }
    if s != "" { ClassesOf(s[0]); }
    hide InRanges, Match, Digit;
    if s != "" && All(s[1..], SMALL_WORD) { assert forall i | 1 <= i < |s| :: s[i] == s[1..][i - 1]; }
  }

  lemma ModelNameMatches(s: string)
    ensures ModelName(s) <==> Match(MODEL_NAME, s)
  {
    var tail := [One(WORD), Many(WORD)];
    assert MODEL_NAME == [One(CAPITAL)] + tail;
    MatchOne(CAPITAL, tail, s);
    if s != "" {
      MatchHeadTail(WORD, WORD, s[1..]);
      ClassesOf(s[0]);
    }
    forall c ensures InRanges(c, WORD) <==> Letter(c) || Digit(c) || c == '_' { ClassesOf(c); }
    hide InRanges, Match, Letter, Digit;
    if |s| > 1 {
      assert s[1..][1..] == s[2..];
      if All(s[2..], WORD) { assert forall i | 2 <= i < |s| :: s[i] == s[2..][i - 2]; }
    }
  }

  /** Model references are those of `^[a-z][a-z0-9_]*\.[A-Z][A-Za-z0-9_]+$`. */
  lemma ModelRefMatches(s: string)
    ensures ModelRef(s) <==> Match(MODEL_REF, s)
  {
    hide Match, AppLabel, ModelName;
    if Match(MODEL_REF, s) { MatchFindsDot(s); }
    if ModelRef(s) {
      var dot :| 0 <= dot < |s| && s[dot] == '.' && AppLabel(s[..dot]) && ModelName(s[dot + 1..]);
      DotMatches(s, dot);
    }
  }

  lemma ModelRefPieces(s: string)
    ensures Match(MODEL_REF, s) <==>
              && s != "" && InRanges(s[0], SMALL)
              && exists k :: 0 <= k <= |s| - 1 && All(s[1..][..k], SMALL_WORD) && Match([One(DOT)] + MODEL_NAME, s[1..][k..])
  {
    var tail := [One(DOT)] + MODEL_NAME;
    assert MODEL_REF == [One(SMALL)] + ([Many(SMALL_WORD)] + tail);
    hide Match, InRanges;
    MatchOne(SMALL, [Many(SMALL_WORD)] + tail, s);
    if s != "" { MatchMany(SMALL_WORD, tail, s[1..]); }
  }

  lemma MatchFindsDot(s: string)
    requires Match(MODEL_REF, s)
    ensures ModelRef(s)
  {
    hide Match, InRanges, AppLabel, ModelName;
    ModelRefPieces(s);
    var k :| 0 <= k <= |s| - 1 && All(s[1..][..k], SMALL_WORD) && Match([One(DOT)] + MODEL_NAME, s[1..][k..]);
    MatchOne(DOT, MODEL_NAME, s[1..][k..]);
    DotAt(s, k + 1);
  }

  lemma DotMatches(s: string, dot: nat)
    requires dot < |s| && s[dot] == '.' && AppLabel(s[..dot]) && ModelName(s[dot + 1..])
    ensures Match(MODEL_REF, s)
  {
    assert dot > 0;
    hide Match, InRanges, AppLabel, ModelName;
    ModelRefPieces(s);
    DotAt(s, dot);
    var k := dot - 1;
    assert All(s[1..][..k], SMALL_WORD) && Match([One(DOT)] + MODEL_NAME, s[1..][k..]);
  }

  lemma DotAt(s: string, dot: nat)
    requires 0 < dot < |s|
    ensures All(s[1..][..dot - 1], SMALL_WORD) && Match([One(DOT)] + MODEL_NAME, s[1..][dot - 1..])
         && InRanges(s[0], SMALL)
       <==> s[dot] == '.' && AppLabel(s[..dot]) && ModelName(s[dot + 1..])
  {
    AppLabelMatches(s[..dot]);
    MatchHeadTail(SMALL, SMALL_WORD, s[..dot]);
    assert s[..dot][1..] == s[1..][..dot - 1] && s[..dot][0] == s[0];
    assert s[1..][dot - 1..] == s[dot..] && s[dot..][1..] == s[dot + 1..];
    MatchOne(DOT, MODEL_NAME, s[dot..]);
    ClassesOf(s[dot]);
    ModelNameMatches(s[dot + 1..]);
    hide Match, InRanges, All, AppLabel, ModelName;
  }

  const RESERVED := {"add_mcpquerylog", "change_mcpquerylog", "delete_mcpquerylog", "view_mcpquerylog"}

  predicate EntryOk(p: Profile) {
    && Identifier(p.entry.role) && p.entry.codename !in RESERVED && p.entry.hookImports
    && forall i | 0 <= i < |p.entry.models| :: ModelRef(p.entry.models[i])
  }

  /** The four permissions Django gives every model by default, of this model. */
  function DefaultCodename(action: string): string { action + "_mcpquerylog" }

  lemma ReservedAreDefaults(codename: string)
    ensures codename in RESERVED <==> exists action :: action in {"add", "change", "delete", "view"} && codename == DefaultCodename(action)
  {
    assert DefaultCodename("add") == "add_mcpquerylog" && DefaultCodename("change") == "change_mcpquerylog";
    assert DefaultCodename("delete") == "delete_mcpquerylog" && DefaultCodename("view") == "view_mcpquerylog";
  }

  ghost predicate Unique(ps: seq<Profile>, f: Field) {
    forall i, j | 0 <= i < j < |ps| :: Value(ps[i], f) != Value(ps[j], f)
  }

  /** Non-empty identifiers, each unique across the profiles, and well-formed entries. */
  ghost predicate WellFormed(ps: seq<Profile>) {
    && (forall f: Field :: Unique(ps, f))
    && (forall f: Field, i | 0 <= i < |ps| :: Value(ps[i], f) != "")
    && forall i | 0 <= i < |ps| :: EntryOk(ps[i])
  }

  ghost predicate ValidProfiles(ps: seq<Profile>) { ps != [] && WellFormed(ps) }

  /** A profile's entry by the settings' own rules. */
  lemma EntryExactly(p: Profile)
    ensures EntryOk(p) <==>
              && Match(PG_IDENTIFIER, p.entry.role)
              && (forall action | action in {"add", "change", "delete", "view"} :: p.entry.codename != DefaultCodename(action))
              && p.entry.hookImports
              && forall i | 0 <= i < |p.entry.models| :: Match(MODEL_REF, p.entry.models[i])
  {
    IdentifierMatches(p.entry.role);
    ReservedAreDefaults(p.entry.codename);
    forall i | 0 <= i < |p.entry.models| ensures ModelRef(p.entry.models[i]) <==> Match(MODEL_REF, p.entry.models[i]) {
      ModelRefMatches(p.entry.models[i]);
    }
    hide Match, ModelRef, Identifier, DefaultCodename;
  }

  /** Valid lists: no role, permission or group is empty or serves two profiles. */
  lemma ValidExactly(ps: seq<Profile>)
    ensures ValidProfiles(ps) <==>
              && ps != [] && (forall i | 0 <= i < |ps| :: EntryOk(ps[i]))
              && (forall i | 0 <= i < |ps| :: ps[i].entry.role != "" && ps[i].entry.codename != "" && ps[i].entry.group != "")
              && forall i, j | 0 <= i < j < |ps| ::
                   ps[i].entry.role != ps[j].entry.role && ps[i].entry.codename != ps[j].entry.codename && ps[i].entry.group != ps[j].entry.group
  {
    hide EntryOk;
    if ValidProfiles(ps) {
      assert Unique(ps, Role) && Unique(ps, Codename) && Unique(ps, GroupName);
      forall i | 0 <= i < |ps| ensures ps[i].entry.role != "" && ps[i].entry.codename != "" && ps[i].entry.group != "" {
        assert Value(ps[i], Role) != "" && Value(ps[i], Codename) != "" && Value(ps[i], GroupName) != "";
      }
    }
  }

  datatype SettingsError =
    | NoProfiles
    | EmptyField(profile: string, field: Field)
    | DuplicateField(profile: string, field: Field, other: string)
    | BadEntry(profile: string)

  /** The error names a fault the profiles have. */
  ghost predicate Truthful(ps: seq<Profile>, e: SettingsError) {
    match e
    case NoProfiles => ps == []
    case EmptyField(name, f) => exists i | 0 <= i < |ps| :: ps[i].name == name && Value(ps[i], f) == ""
    case DuplicateField(name, f, other) =>
      exists i, j | 0 <= j < i < |ps| :: ps[i].name == name && ps[j].name == other && Value(ps[i], f) == Value(ps[j], f)
    case BadEntry(name) => exists i | 0 <= i < |ps| :: ps[i].name == name && !EntryOk(ps[i])
  }

  type Registry = map<string, string>

  function RegistryOf(seen: map<Field, Registry>, f: Field): Registry { if f in seen then seen[f] else map[] }

  /** Enter the profile's three identifiers, each of which must be non-empty and new. */
  method RegisterFields(p: Profile, seen: map<Field, Registry>) returns (r: Result<map<Field, Registry>, SettingsError>)
    ensures r.Ok? <==> forall f: Field :: Value(p, f) != "" && Value(p, f) !in RegistryOf(seen, f)
    ensures r.Ok? ==> forall f: Field :: RegistryOf(r.value, f) == RegistryOf(seen, f)[Value(p, f) := p.name]
    ensures r.Failed? ==>
              || (r.error.EmptyField? && r.error.profile == p.name && Value(p, r.error.field) == "")
              || (r.error.DuplicateField? && r.error.profile == p.name && Value(p, r.error.field) in RegistryOf(seen, r.error.field)
                  && RegistryOf(seen, r.error.field)[Value(p, r.error.field)] == r.error.other)
  {
    hide Value;
    var now := seen;
    for i := 0 to |FIELDS|
      invariant forall j | 0 <= j < i :: Value(p, FIELDS[j]) != "" && Value(p, FIELDS[j]) !in RegistryOf(seen, FIELDS[j])
      invariant forall j | 0 <= j < i :: RegistryOf(now, FIELDS[j]) == RegistryOf(seen, FIELDS[j])[Value(p, FIELDS[j]) := p.name]
      invariant forall j | i <= j < |FIELDS| :: RegistryOf(now, FIELDS[j]) == RegistryOf(seen, FIELDS[j])
    {
      var f := FIELDS[i];
      var value := Value(p, f);
      if value == "" { return Failed(EmptyField(p.name, f)); }
      if value in RegistryOf(now, f) { return Failed(DuplicateField(p.name, f, RegistryOf(now, f)[value])); }
      now := now[f := RegistryOf(now, f)[value := p.name]];
    }
    forall f: Field
      ensures Value(p, f) != "" && Value(p, f) !in RegistryOf(seen, f)
      ensures RegistryOf(now, f) == RegistryOf(seen, f)[Value(p, f) := p.name]
    {
      FieldListed(f);
    }
    return Ok(now);
  }

  /** The registry of a field holds the identifiers of exactly these profiles. */
  ghost predicate Entered(ps: seq<Profile>, f: Field, registry: Registry) {
    && (forall j | 0 <= j < |ps| :: Value(ps[j], f) in registry)
    && forall v | v in registry :: exists j | 0 <= j < |ps| :: Value(ps[j], f) == v && ps[j].name == registry[v]
  }

  ghost predicate AllEntered(ps: seq<Profile>, seen: map<Field, Registry>) {
    forall f: Field :: Entered(ps, f, RegistryOf(seen, f))
  }

  /** Settings validation accepts exactly the valid profile lists, and a refusal names a real fault. */
  method ValidateProfiles(ps: seq<Profile>) returns (problem: Option<SettingsError>)
    ensures problem.None? <==> ValidProfiles(ps)
    ensures problem.Some? ==> Truthful(ps, problem.value)
  {
    if ps == [] { return Some(NoProfiles); }
    hide WellFormed, Entered, EntryOk, Truthful, Value;
    var seen: map<Field, Registry> := map[];
    NothingEntered(seen);
    for i := 0 to |ps|
      invariant WellFormed(ps[..i]) && AllEntered(ps[..i], seen)
    {
      var r := RegisterFields(ps[i], seen);
      assert ps[..i + 1] == ps[..i] + [ps[i]];
      if r.Failed? {
        Refused(ps, i, seen, r.error);
        return Some(r.error);
      }
      if !EntryOk(ps[i]) {
        MisformedEntry(ps, i);
        return Some(BadEntry(ps[i].name));
      }
      Admitted(ps[..i], ps[i], seen, r.value);
      seen := r.value;
    }
    assert ps[..|ps|] == ps;
    return None;
  }

  lemma NothingEntered(seen: map<Field, Registry>)
    requires seen == map[]
    ensures WellFormed([]) && AllEntered([], seen)
  {
  }

  lemma MisformedEntry(ps: seq<Profile>, i: nat)
    requires i < |ps| && !EntryOk(ps[i])
    ensures !WellFormed(ps) && Truthful(ps, BadEntry(ps[i].name))
  {
  }

  lemma Refused(ps: seq<Profile>, i: nat, seen: map<Field, Registry>, e: SettingsError)
    requires i < |ps| && AllEntered(ps[..i], seen)
    requires (e.EmptyField? && e.profile == ps[i].name && Value(ps[i], e.field) == "")
          || (e.DuplicateField? && e.profile == ps[i].name && Value(ps[i], e.field) in RegistryOf(seen, e.field)
              && RegistryOf(seen, e.field)[Value(ps[i], e.field)] == e.other)
    ensures !WellFormed(ps) && Truthful(ps, e)
  {
    hide EntryOk;
    if e.DuplicateField? {
      var registry, v := RegistryOf(seen, e.field), Value(ps[i], e.field);
      assert Entered(ps[..i], e.field, registry);
      var j :| 0 <= j < i && Value(ps[..i][j], e.field) == v && ps[..i][j].name == registry[v];
      assert ps[j] == ps[..i][j];
      assert !Unique(ps, e.field);
    }
  }

  lemma Admitted(ps: seq<Profile>, p: Profile, seen: map<Field, Registry>, now: map<Field, Registry>)
    requires WellFormed(ps) && AllEntered(ps, seen) && EntryOk(p)
    requires forall f: Field :: Value(p, f) != "" && Value(p, f) !in RegistryOf(seen, f)
    requires forall f: Field :: RegistryOf(now, f) == RegistryOf(seen, f)[Value(p, f) := p.name]
    ensures WellFormed(ps + [p]) && AllEntered(ps + [p], now)
  {
    hide EntryOk, Value;
    forall f: Field ensures Unique(ps + [p], f) && Entered(ps + [p], f, RegistryOf(now, f)) {
      assert Unique(ps, f) && Entered(ps, f, RegistryOf(seen, f));
      Enter(ps, p, f, RegistryOf(seen, f));
    }
  }

  lemma Enter(ps: seq<Profile>, p: Profile, f: Field, registry: Registry)
    requires Unique(ps, f) && Entered(ps, f, registry) && Value(p, f) !in registry
    ensures Unique(ps + [p], f) && Entered(ps + [p], f, registry[Value(p, f) := p.name])
  {
    hide Value;
    var next, all := registry[Value(p, f) := p.name], ps + [p];
    forall v | v in next ensures exists j | 0 <= j < |all| :: Value(all[j], f) == v && all[j].name == next[v] {
      if v == Value(p, f) {
        assert all[|ps|] == p;
      } else {
        var j :| 0 <= j < |ps| && Value(ps[j], f) == v && ps[j].name == registry[v];
        assert all[j] == ps[j];
      }
    }
  }

  // ----- resolution -----

  datatype Resolution = NoPerm | Ambiguous | Bound(profile: Profile)

  /** The profile codenames among the permissions a user holds, by group or directly. */
  function Matched(ps: seq<Profile>, held: set<string>): set<string> {
    set p | p in ps && p.entry.codename in held :: p.entry.codename
  }

  /** The profile a codename maps back to; a later profile would overwrite an earlier one. */
  function LastWith(ps: seq<Profile>, codenames: set<string>): (p: Profile)
    requires exists q | q in ps :: q.entry.codename in codenames
    ensures p in ps && p.entry.codename in codenames
  {
    var last := ps[|ps| - 1];
    if last.entry.codename in codenames then last
    else
      assert ps == ps[..|ps| - 1] + [last];
      LastWith(ps[..|ps| - 1], codenames)
  }

  function Resolve(ps: seq<Profile>, held: set<string>): Resolution {
    var matched := Matched(ps, held);
    if matched == {} then NoPerm
    else if |matched| > 1 then Ambiguous
    else
      assert exists q | q in ps :: q.entry.codename in matched by {
        var c :| c in matched;
      }
      Bound(LastWith(ps, matched))
  }

  /** The profiles whose permission is held. */
  function Assigned(ps: seq<Profile>, held: set<string>): set<Profile> { set p | p in ps && p.entry.codename in held }

  /** Profiles told apart by a field are as many as its values. */
  lemma {:induction false} AsManyValues(ps: set<Profile>, f: Field)
    requires forall p, q | p in ps && q in ps && p != q :: Value(p, f) != Value(q, f)
    ensures |set p | p in ps :: Value(p, f)| == |ps|
  {
    if ps != {} {
      var p :| p in ps;
      var rest := ps - {p};
      AsManyValues(rest, f);
      assert (set q | q in ps :: Value(q, f)) == (set q | q in rest :: Value(q, f)) + {Value(p, f)};
    }
  }

  lemma Apart(ps: seq<Profile>, f: Field)
    requires Unique(ps, f)
    ensures forall p, q | p in ps && q in ps && p != q :: Value(p, f) != Value(q, f)
  {
  }

  lemma SameSize(ps: seq<Profile>, s: set<Profile>, f: Field)
    requires Unique(ps, f) && forall p | p in s :: p in ps
    ensures |set p | p in s :: Value(p, f)| == |s|
  {
    Apart(ps, f);
    AsManyValues(s, f);
  }

  /** With unique codenames a user is bound exactly when one profile's permission is held, and to it. */
  lemma ResolveCountsProfiles(ps: seq<Profile>, held: set<string>)
    requires Unique(ps, Codename)
    ensures Resolve(ps, held).NoPerm? <==> Assigned(ps, held) == {}
    ensures Resolve(ps, held).Ambiguous? <==> |Assigned(ps, held)| > 1
    ensures forall p :: Resolve(ps, held) == Bound(p) <==> Assigned(ps, held) == {p}
  {
    var s := Assigned(ps, held);
    SameSize(ps, s, Codename);
    Images(ps, s, held);
    if |s| == 1 {
      var p :| p in s;
      assert |s - {p}| == 0;
      assert s == {p};
    }
  }

  lemma Images(ps: seq<Profile>, s: set<Profile>, held: set<string>)
    requires s == Assigned(ps, held)
    ensures Matched(ps, held) == set p | p in s :: Value(p, Codename)
  {
    forall c | c in Matched(ps, held) ensures exists p | p in s :: Value(p, Codename) == c {
      var p :| p in ps && p.entry.codename in held && p.entry.codename == c;
      assert p in s && Value(p, Codename) == c;
    }
  }

  /** Why uniqueness matters: profiles sharing the one codename held are not found ambiguous; the last of
      them is bound, whatever the rest of the list. */
  lemma {:induction false} SharedCodenameHidesTheFirst(ps: seq<Profile>, held: set<string>, c: string) returns (k: nat)
    requires Matched(ps, held) == {c}
    ensures k < |ps| && ps[k].entry.codename == c && (forall j | k < j < |ps| :: ps[j].entry.codename != c)
    ensures Resolve(ps, held) == Bound(ps[k])
  {
    assert c in Matched(ps, held);
    k := LastIndex(ps, {c});
  }

  lemma {:induction false} LastIndex(ps: seq<Profile>, codenames: set<string>) returns (k: nat)
    requires exists q | q in ps :: q.entry.codename in codenames
    ensures k < |ps| && LastWith(ps, codenames) == ps[k] && ps[k].entry.codename in codenames
    ensures forall j | k < j < |ps| :: ps[j].entry.codename !in codenames
  {
    var n := |ps| - 1;
    if ps[n].entry.codename in codenames {
      k := n;
    } else {
      assert ps == ps[..n] + [ps[n]];
      k := LastIndex(ps[..n], codenames);
    }
  }

  // ----- group membership over runs -----

  type Members = map<User, set<Group>>

  function GroupsOf(m: Members, u: User): set<Group> { if u in m then m[u] else {} }

  /** Each call of the group manager; the `post_add` signal carries what was newly added. */
  datatype Change =
    | AddGroups(user: User, groups: set<Group>)
    | AddUsers(group: Group, users: set<User>)
    | RemoveGroups(user: User, groups: set<Group>)
    | RemoveUsers(group: Group, users: set<User>)

  function Next(m: Members, c: Change): Members {
    match c
    case AddGroups(u, gs) => m[u := GroupsOf(m, u) + gs]
    case AddUsers(g, us) => map v | v in m.Keys + us :: if v in us then GroupsOf(m, v) + {g} else GroupsOf(m, v)
    case RemoveGroups(u, gs) => m[u := GroupsOf(m, u) - gs]
    case RemoveUsers(g, us) => map v | v in m.Keys + us :: if v in us then GroupsOf(m, v) - {g} else GroupsOf(m, v)
  }

  function ProfileGroups(ps: seq<Profile>): set<Group> { set p | p in ps :: p.entry.group }

  /** The profile groups a user is in. */
  function Cohorts(ps: seq<Profile>, m: Members, u: User): set<Group> { GroupsOf(m, u) * ProfileGroups(ps) }

  datatype Alert = Gained(user: User, cohorts: set<Group>) | Ambiguity(user: User, cohorts: set<Group>)

  /** The users a change raises alerts for. */
  function Subjects(ps: seq<Profile>, m: Members, c: Change): set<User> {
    match c
    case AddGroups(u, gs) => if (gs - GroupsOf(m, u)) * ProfileGroups(ps) != {} then {u} else {}
    case AddUsers(g, us) => if g in ProfileGroups(ps) then set v | v in us && g !in GroupsOf(m, v) else {}
    case _ => {}
  }

  /** One user's alerts, given the profile groups the user is now in. */
  function AlertsFor(u: User, cohorts: set<Group>): set<Alert> {
    {Gained(u, cohorts)} + if |cohorts| > 1 then {Ambiguity(u, cohorts)} else {}
  }

  function AlertsAbout(ps: seq<Profile>, m: Members, us: set<User>): set<Alert> {
    set u, a | u in us && a in AlertsFor(u, Cohorts(ps, m, u)) :: a
  }

  function Alerts(ps: seq<Profile>, m: Members, c: Change): set<Alert> { AlertsAbout(ps, Next(m, c), Subjects(ps, m, c)) }

  function Run(m: Members, cs: seq<Change>): Members {
    if cs == [] then m else Next(Run(m, cs[..|cs| - 1]), cs[|cs| - 1])
  }

  /** Each profile's permission is held through its profile group and in no other way. */
  ghost predicate HeldByGroup(ps: seq<Profile>, groups: set<Group>, held: set<string>) {
    forall p | p in ps :: p.entry.codename in held <==> p.entry.group in groups
  }

  lemma GroupImages(ps: seq<Profile>, m: Members, u: User, held: set<string>)
    requires HeldByGroup(ps, GroupsOf(m, u), held)
    ensures Cohorts(ps, m, u) == set p | p in Assigned(ps, held) :: Value(p, GroupName)
  {
    forall g | g in Cohorts(ps, m, u) ensures exists p | p in Assigned(ps, held) :: Value(p, GroupName) == g {
      var p :| p in ps && p.entry.group == g;
      assert p in Assigned(ps, held) && Value(p, GroupName) == g;
    }
  }

  /** For valid profiles, resolution is decided by the number of profile groups a user is in. */
  lemma ResolveCountsGroups(ps: seq<Profile>, m: Members, u: User, held: set<string>)
    requires ValidProfiles(ps) && HeldByGroup(ps, GroupsOf(m, u), held)
    ensures Resolve(ps, held).NoPerm? <==> Cohorts(ps, m, u) == {}
    ensures Resolve(ps, held).Ambiguous? <==> |Cohorts(ps, m, u)| > 1
  {
    var s := Assigned(ps, held);
    assert Unique(ps, Codename) && Unique(ps, GroupName);
    ResolveCountsProfiles(ps, held);
    SameSize(ps, s, GroupName);
    GroupImages(ps, m, u, held);
  }

  lemma AlertsAre(ps: seq<Profile>, m: Members, us: set<User>, a: Alert)
    ensures a in AlertsAbout(ps, m, us) <==> a.user in us && a in AlertsFor(a.user, Cohorts(ps, m, a.user))
  {
  }

  /** Who is in which group after a change. */
  lemma MembershipAfter(m: Members, c: Change, u: User, g: Group)
    ensures g in GroupsOf(Next(m, c), u) <==>
              match c
              case AddGroups(v, gs) => g in GroupsOf(m, u) || (u == v && g in gs)
              case AddUsers(h, us) => g in GroupsOf(m, u) || (u in us && g == h)
              case RemoveGroups(v, gs) => g in GroupsOf(m, u) && !(u == v && g in gs)
              case RemoveUsers(h, us) => g in GroupsOf(m, u) && !(u in us && g == h)
  {
  }

  /** A change announces an access gained exactly when it puts the user into a further profile group, with
      the profile groups the user is then in. */
  lemma GainAnnouncedExactly(ps: seq<Profile>, m: Members, c: Change, u: User, gs: set<Group>)
    ensures Gained(u, gs) in Alerts(ps, m, c) <==> gs == Cohorts(ps, Next(m, c), u) && !(gs <= Cohorts(ps, m, u))
  {
    hide AlertsAbout, Next, Cohorts, Subjects;
    SubjectsGain(ps, m, c, u);
    AlertsAre(ps, Next(m, c), Subjects(ps, m, c), Gained(u, gs));
  }

  /** A change announces an ambiguity exactly when it puts the user into a further profile group and
      leaves more than one. */
  lemma AnnouncedExactly(ps: seq<Profile>, m: Members, c: Change, u: User, gs: set<Group>)
    ensures Ambiguity(u, gs) in Alerts(ps, m, c) <==>
              gs == Cohorts(ps, Next(m, c), u) && |gs| > 1 && !(gs <= Cohorts(ps, m, u))
  {
    hide AlertsAbout, Next, Cohorts, Subjects;
    SubjectsGain(ps, m, c, u);
    AlertsAre(ps, Next(m, c), Subjects(ps, m, c), Ambiguity(u, gs));
  }

  lemma SubjectsGain(ps: seq<Profile>, m: Members, c: Change, u: User)
    ensures u in Subjects(ps, m, c) <==> !(Cohorts(ps, Next(m, c), u) <= Cohorts(ps, m, u))
  {
    var before, after, all := GroupsOf(m, u), GroupsOf(Next(m, c), u), ProfileGroups(ps);
    hide ProfileGroups;
    match c
    case AddGroups(v, gs) =>
      if v == u {
        assert after == before + gs;
        if (gs - before) * all != {} {
          var g :| g in (gs - before) * all;
          assert g in after * all && g !in before * all;
        } else {
          assert forall g | g in after * all :: g !in (gs - before) * all;
        }
      } else {
        assert after == before;
      }
    case AddUsers(g, us) =>
      assert after == if u in us then before + {g} else before;
      if u in Subjects(ps, m, c) { assert g in after * all && g !in before * all; }
    case RemoveGroups(_, _) =>
      assert after <= before;
    case RemoveUsers(_, _) =>
      assert after <= before;
  }

  /** After the first `j` changes the user is in several profile groups. */
  ghost predicate InMany(ps: seq<Profile>, m: Members, cs: seq<Change>, u: User, j: nat)
    requires j <= |cs|
  {
    |Cohorts(ps, Run(m, cs[..j]), u)| > 1
  }

  /** The `k`-th change announces the user as ambiguous. */
  ghost predicate AnnouncedAt(ps: seq<Profile>, m: Members, cs: seq<Change>, u: User, k: nat)
    requires k < |cs|
  {
    exists gs :: Ambiguity(u, gs) in Alerts(ps, Run(m, cs[..k]), cs[k])
  }

  /** A change that takes the user from at most one profile group to several announces it. */
  lemma CrossingAnnounced(ps: seq<Profile>, m: Members, cs: seq<Change>, u: User, k: nat)
    requires k < |cs| && !InMany(ps, m, cs, u, k) && InMany(ps, m, cs, u, k + 1)
    ensures AnnouncedAt(ps, m, cs, u, k)
  {
    var before, c := Run(m, cs[..k]), cs[k];
    assert cs[..k + 1][..k] == cs[..k];
    assert Run(m, cs[..k + 1]) == Next(before, c);
    hide Run, Alerts, Cohorts, Next;
    var now := Cohorts(ps, Next(before, c), u);
    if now <= Cohorts(ps, before, u) { SubsetSize(now, Cohorts(ps, before, u)); }
    AnnouncedExactly(ps, before, c, u, now);
  }

  /** A user who ends up in several profile groups, having started in at most one, was announced as
      ambiguous at some change since which the user was always in several. */
  lemma {:induction false} ManyGroupsAnnounced(ps: seq<Profile>, m: Members, cs: seq<Change>, u: User, n: nat) returns (k: nat)
    requires n <= |cs| && !InMany(ps, m, cs, u, 0) && InMany(ps, m, cs, u, n)
    ensures k < n && AnnouncedAt(ps, m, cs, u, k)
    ensures forall j | k < j <= n :: InMany(ps, m, cs, u, j)
  {
    hide InMany, AnnouncedAt;
    if n > 0 && InMany(ps, m, cs, u, n - 1) {
      k := ManyGroupsAnnounced(ps, m, cs, u, n - 1);
    } else {
      k := n - 1;
      CrossingAnnounced(ps, m, cs, u, k);
    }
  }

  lemma SubsetSize(a: set<Group>, b: set<Group>)
    requires a <= b
    ensures |a| <= |b|
  {
    assert b == a + (b - a);
    assert |a + (b - a)| == |a| + |b - a|;
  }

  /** Whenever a user resolves to an ambiguous profile, an ambiguity alert was raised for that user since
      last in at most one profile group. */
  lemma AmbiguityIsAnnounced(ps: seq<Profile>, m: Members, cs: seq<Change>, u: User, held: set<string>) returns (k: nat)
    requires ValidProfiles(ps) && |Cohorts(ps, m, u)| <= 1
    requires HeldByGroup(ps, GroupsOf(Run(m, cs), u), held) && Resolve(ps, held).Ambiguous?
    ensures k < |cs| && AnnouncedAt(ps, m, cs, u, k)
    ensures forall j | k < j <= |cs| :: InMany(ps, m, cs, u, j)
  {
    ResolveCountsGroups(ps, Run(m, cs), u, held);
    assert cs[..|cs|] == cs && cs[..0] == [];
    k := ManyGroupsAnnounced(ps, m, cs, u, |cs|);
  }

  /** The log gained each alert of `extra` once and nothing else. */
  ghost predicate Logged(before: seq<Alert>, log: seq<Alert>, extra: set<Alert>) {
    before <= log && |log| == |before| + |extra| && forall a :: a in log[|before|..] <==> a in extra
  }

  lemma LogMore(first: seq<Alert>, before: seq<Alert>, page: seq<Alert>, extra: set<Alert>, more: set<Alert>)
    requires Logged(first, before, extra) && |page| == |more| && (forall a :: a in page <==> a in more)
    requires |extra + more| == |extra| + |more|
    ensures Logged(first, before + page, extra + more)
  {
    assert (before + page)[|first|..] == before[|first|..] + page;
  }

  /** The pages sent about one user. */
  function Page(u: User, cohorts: set<Group>): seq<Alert> {
    [Gained(u, cohorts)] + if |cohorts| > 1 then [Ambiguity(u, cohorts)] else []
  }

  lemma PageIsAlerts(u: User, cohorts: set<Group>)
    ensures |Page(u, cohorts)| == |AlertsFor(u, cohorts)| && forall a :: a in Page(u, cohorts) <==> a in AlertsFor(u, cohorts)
  {
  }

  /** The membership table and the alert log, as the admin's changes and the receiver drive them. */
  class Directory {
    const profiles: seq<Profile>
    var members: Members
    var log: seq<Alert>

    constructor (profiles: seq<Profile>)
      ensures this.profiles == profiles && members == map[] && log == []
    {
      this.profiles, members, log := profiles, map[], [];
    }

    /** The profile groups of each user, as a table. */
    method McpMemberships(us: set<User>) returns (out: map<User, set<Group>>)
      ensures out.Keys == us && forall u | u in us :: out[u] == Cohorts(profiles, members, u)
    {
      out := map[];
      var todo := us;
      while todo != {}
        invariant todo <= us && out.Keys == us - todo
        invariant forall u | u in out :: out[u] == Cohorts(profiles, members, u)
        decreases |todo|
      {
        var u :| u in todo;
        out := out[u := GroupsOf(members, u) * ProfileGroups(profiles)];
        todo := todo - {u};
      }
    }

    /** Page for every user in turn: once for the access gained and once more for an ambiguity. */
    method AlertMcpGroupGrant(us: set<User>)
      modifies this`log
      ensures Logged(old(log), log, AlertsAbout(profiles, members, us))
    {
      var memberships := McpMemberships(us);
      var todo := us;
      NobodyToAlert(profiles, members, us);
      hide AlertsAbout, AlertsFor, Cohorts;
      while todo != {}
        invariant todo <= us
        invariant Logged(old(log), log, AlertsAbout(profiles, members, us - todo))
        decreases |todo|
      {
        var u :| u in todo;
        var page := Page(u, memberships[u]);
        OneMoreSubject(profiles, members, us - todo, u);
        assert us - (todo - {u}) == us - todo + {u};
        ghost var before := log;
        log := log + page;
        PageIsAlerts(u, memberships[u]);
        LogMore(old(log), before, page, AlertsAbout(profiles, members, us - todo), AlertsFor(u, memberships[u]));
        todo := todo - {u};
      }
      assert us - todo == us;
    }

    /** Change memberships; the receiver then sees what was newly added. */
    method Apply(c: Change)
      modifies this
      ensures members == Next(old(members), c)
      ensures Logged(old(log), log, Alerts(profiles, old(members), c))
    {
      var subjects := Subjects(profiles, members, c);
      members := Next(members, c);
      AlertMcpGroupGrant(subjects);
    }
  }

  lemma NobodyToAlert(ps: seq<Profile>, m: Members, us: set<User>)
    ensures AlertsAbout(ps, m, us - us) == {}
  {
  }

  lemma OneMoreSubject(ps: seq<Profile>, m: Members, us: set<User>, u: User)
    requires u !in us
    ensures AlertsAbout(ps, m, us + {u}) == AlertsAbout(ps, m, us) + AlertsFor(u, Cohorts(ps, m, u))
    ensures |AlertsAbout(ps, m, us + {u})| == |AlertsAbout(ps, m, us)| + |AlertsFor(u, Cohorts(ps, m, u))|
  {
    hide AlertsAbout, AlertsFor, Cohorts;
    var these, more := AlertsAbout(ps, m, us), AlertsFor(u, Cohorts(ps, m, u));
    forall a: Alert
      ensures a in AlertsAbout(ps, m, us + {u}) <==> a in these || a in more
      ensures !(a in these && a in more)
    {
      AlertsAre(ps, m, us, a);
      AlertsAre(ps, m, us + {u}, a);
      AlertsName(u, Cohorts(ps, m, u), a);
    }
    assert AlertsAbout(ps, m, us + {u}) == these + more;
    assert these !! more;
    assert |these + more| == |these| + |more|;
  }

  lemma AlertsName(u: User, cohorts: set<Group>, a: Alert)
    ensures a in AlertsFor(u, cohorts) ==> a.user == u
  {
  }

}
