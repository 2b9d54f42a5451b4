/** The cache keys of the throttle, the volume counters and the ambiguity dedup keep apart. */
module CacheKeys {
  import opened Prelude

  const ROOT: string := "mcp_sql:"

  function IpKey(scope: string, ip: string): string { ROOT + scope + ":ip:" + ip }

  function VolumeKey(decision: string, window: nat, user: string): string {
    ROOT + "vol:" + decision + ":" + Digits(window) + ":" + user
  }

  function WarnedKey(user: string): string { ROOT + "ambiguous_warned:" + user }

  function Digit(d: nat): char
    requires d < 10
  {
    "0123456789"[d]
  }

  /** Decimal rendering. */
  function Digits(n: nat): string { if n < 10 then [Digit(n)] else Digits(n / 10) + [Digit(n % 10)] }

  predicate Colonless(s: string) { ':' !in s }

  lemma DigitInjective(a: nat, b: nat)
    requires a < 10 && b < 10
    ensures Digit(a) == Digit(b) ==> a == b
    ensures Digit(a) != ':'
  {
  }

  lemma {:induction false} DigitsColonless(n: nat)
    ensures Colonless(Digits(n)) && Digits(n) != []
  {
    DigitInjective(n % 10, 0);
    if n >= 10 { DigitsColonless(n / 10); }
  }

  lemma {:induction false} DigitsInjective(a: nat, b: nat)
    requires Digits(a) == Digits(b)
    ensures a == b
  {
    DigitsColonless(a / 10);
    DigitsColonless(b / 10);
    DigitInjective(a % 10, b % 10);
    assert a >= 10 ==> Digits(a)[..|Digits(a)| - 1] == Digits(a / 10);
    assert b >= 10 ==> Digits(b)[..|Digits(b)| - 1] == Digits(b / 10);
    if a >= 10 && b >= 10 {
      DigitsInjective(a / 10, b / 10);
    }
  }

  /** A colon-free head can be read off the front of a key. */
  lemma HeadUnique(x: string, s: string, y: string, t: string)
    requires Colonless(x) && Colonless(y)
    requires x + ":" + s == y + ":" + t
    ensures x == y && s == t
  {
    var w := x + ":" + s;
    assert forall i | 0 <= i < |x| :: w[i] == x[i] && x[i] != ':';
    assert forall i | 0 <= i < |y| :: w[i] == y[i] && y[i] != ':';
    assert w[|x|] == ':' && w[|y|] == ':';
    assert w[..|x|] == x && w[..|y|] == y;
    assert w[|x| + 1..] == s && w[|y| + 1..] == t;
  }

  lemma DropRoot(s: string, t: string)
    requires ROOT + s == ROOT + t
    ensures s == t
  {
    assert (ROOT + s)[|ROOT|..] == s && (ROOT + t)[|ROOT|..] == t;
  }

  /** Two throttle keys are equal only for the same scope and address. */
  lemma IpKeyInjective(scope: string, ip: string, scope1: string, ip1: string)
    requires Colonless(scope) && Colonless(scope1)
    ensures IpKey(scope, ip) == IpKey(scope1, ip1) <==> scope == scope1 && ip == ip1
  {
    if IpKey(scope, ip) == IpKey(scope1, ip1) {
      assert IpKey(scope, ip) == ROOT + (scope + ":" + ("ip:" + ip));
      assert IpKey(scope1, ip1) == ROOT + (scope1 + ":" + ("ip:" + ip1));
      DropRoot(scope + ":" + ("ip:" + ip), scope1 + ":" + ("ip:" + ip1));
      HeadUnique(scope, "ip:" + ip, scope1, "ip:" + ip1);
      assert ("ip:" + ip)[3..] == ip && ("ip:" + ip1)[3..] == ip1;
    }
  }

  /** A scope containing a colon breaks this: distinct pairs can share a key. */
  lemma ColonScopesCollide(scope: string, ip: string, ip1: string)
    ensures IpKey(scope, ip + ":ip:" + ip1) == IpKey(scope + ":ip:" + ip, ip1)
  {
    assert IpKey(scope, ip + ":ip:" + ip1) == ROOT + scope + ":ip:" + ip + ":ip:" + ip1;
    assert IpKey(scope + ":ip:" + ip, ip1) == ROOT + scope + ":ip:" + ip + ":ip:" + ip1;
  }

  /** Two volume keys are equal only for the same decision, window and user. */
  lemma VolumeKeyInjective(d: string, w: nat, u: string, d1: string, w1: nat, u1: string)
    requires Colonless(d) && Colonless(d1)
    ensures VolumeKey(d, w, u) == VolumeKey(d1, w1, u1) <==> d == d1 && w == w1 && u == u1
  {
    if VolumeKey(d, w, u) == VolumeKey(d1, w1, u1) {
      var s, s1 := Digits(w) + ":" + u, Digits(w1) + ":" + u1;
      assert VolumeKey(d, w, u) == ROOT + ("vol" + ":" + (d + ":" + s));
      assert VolumeKey(d1, w1, u1) == ROOT + ("vol" + ":" + (d1 + ":" + s1));
      DropRoot("vol" + ":" + (d + ":" + s), "vol" + ":" + (d1 + ":" + s1));
      HeadUnique("vol", d + ":" + s, "vol", d1 + ":" + s1);
      HeadUnique(d, s, d1, s1);
      DigitsColonless(w);
      DigitsColonless(w1);
      HeadUnique(Digits(w), u, Digits(w1), u1);
      DigitsInjective(w, w1);
    }
  }

  /** The three families of keys never meet, provided no throttle scope borrows another family's name. */
  lemma FamiliesDisjoint(scope: string, ip: string, d: string, w: nat, u: string, v: string)
    requires Colonless(scope) && scope != "vol" && scope != "ambiguous_warned"
    ensures IpKey(scope, ip) != VolumeKey(d, w, u)
    ensures IpKey(scope, ip) != WarnedKey(v)
    ensures VolumeKey(d, w, u) != WarnedKey(v)
  {
    var i, s := "ip:" + ip, d + ":" + Digits(w) + ":" + u;
    assert IpKey(scope, ip) == ROOT + (scope + ":" + i);
    assert VolumeKey(d, w, u) == ROOT + ("vol" + ":" + s);
    assert WarnedKey(v) == ROOT + ("ambiguous_warned" + ":" + v);
    if IpKey(scope, ip) == VolumeKey(d, w, u) {
      DropRoot(scope + ":" + i, "vol" + ":" + s);
      HeadUnique(scope, i, "vol", s);
    }
    if IpKey(scope, ip) == WarnedKey(v) {
      DropRoot(scope + ":" + i, "ambiguous_warned" + ":" + v);
      HeadUnique(scope, i, "ambiguous_warned", v);
    }
    if VolumeKey(d, w, u) == WarnedKey(v) {
      DropRoot("vol" + ":" + s, "ambiguous_warned" + ":" + v);
      HeadUnique("vol", s, "ambiguous_warned", v);
    }
  }
}
