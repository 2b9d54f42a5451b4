/** The regular expressions of the settings and of client names: sequences of character classes, matched
    against a whole string. A class lists its ranges by their ends. */
module Patterns {
  import opened Prelude

  type Class = seq<(char, char)>

  datatype Piece = One(ranges: Class) | Many(ranges: Class)

  predicate InRanges(c: char, ranges: Class) {
    exists i | 0 <= i < |ranges| :: ranges[i].0 <= c <= ranges[i].1
  }

  /** Full match; `Many` may take any number of characters. */
  predicate Match(re: seq<Piece>, s: string)
    decreases |re|, |s|
  {
    if re == [] then s == ""
    else
      match re[0]
      case One(r) => s != "" && InRanges(s[0], r) && Match(re[1..], s[1..])
      case Many(r) => Match(re[1..], s) || (s != "" && InRanges(s[0], r) && Match(re, s[1..]))
  }

  predicate All(s: string, ranges: Class) { forall i | 0 <= i < |s| :: InRanges(s[i], ranges) }

  lemma MatchOne(r: Class, rest: seq<Piece>, s: string)
    ensures Match([One(r)] + rest, s) <==> s != "" && InRanges(s[0], r) && Match(rest, s[1..])
  {
    assert ([One(r)] + rest)[1..] == rest;
  }

  /** `Many` takes some first part of the string. */
  lemma {:induction false} MatchMany(r: Class, rest: seq<Piece>, s: string)
    ensures Match([Many(r)] + rest, s) <==> exists k :: 0 <= k <= |s| && All(s[..k], r) && Match(rest, s[k..])
    decreases |s|
  {
    var re := [Many(r)] + rest;
    assert re[1..] == rest && re[0] == Many(r);
    assert s[0..] == s;
    hide InRanges;
    if s != "" {
      var tail := s[1..];
      MatchMany(r, rest, tail);
      if InRanges(s[0], r) && Match(re, tail) {
        var k :| 0 <= k <= |tail| && All(tail[..k], r) && Match(rest, tail[k..]);
        TakeMore(s, r, k);
      }
      if k :| 0 <= k <= |s| && All(s[..k], r) && Match(rest, s[k..]) {
        if k > 0 {
          TakeLess(s, r, k);
        }
      }
    }
  }

  lemma TakeMore(s: string, r: Class, k: nat)
    requires s != "" && k <= |s| - 1 && InRanges(s[0], r) && All(s[1..][..k], r)
    ensures All(s[..k + 1], r) && s[k + 1..] == s[1..][k..]
  {
    hide InRanges;
    var t := s[..k + 1];
    forall i | 0 <= i < |t| ensures InRanges(t[i], r) {
      if i > 0 { assert t[i] == s[1..][..k][i - 1]; }
    }
  }

  lemma TakeLess(s: string, r: Class, k: nat)
    requires 0 < k <= |s| && All(s[..k], r)
    ensures InRanges(s[0], r) && All(s[1..][..k - 1], r) && s[k..] == s[1..][k - 1..]
  {
    hide InRanges;
    assert s[0] == s[..k][0];
    var t := s[1..][..k - 1];
    forall i | 0 <= i < |t| ensures InRanges(t[i], r) { assert t[i] == s[..k][i + 1]; }
  }

  /** At the end of a pattern `Many` takes everything. */
  lemma MatchLast(r: Class, s: string)
    ensures Match([Many(r)], s) <==> All(s, r)
  {
    var none: seq<Piece> := [];
    assert [Many(r)] + none == [Many(r)];
    MatchMany(r, none, s);
    hide InRanges;
    assert s[..|s|] == s && s[|s|..] == "";
    assert Match(none, s[|s|..]);
    if k :| 0 <= k <= |s| && All(s[..k], r) && Match(none, s[k..]) { assert k == |s|; }
  }

  /** The common shape of an identifier. */
  lemma MatchHeadTail(h: Class, r: Class, s: string)
    ensures Match([One(h), Many(r)], s) <==> s != "" && InRanges(s[0], h) && All(s[1..], r)
  {
    assert [One(h), Many(r)] == [One(h)] + [Many(r)];
    MatchOne(h, [Many(r)], s);
    if s != "" { MatchLast(r, s[1..]); }
    hide InRanges;
  }
}
