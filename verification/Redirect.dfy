/** Prefix matching of OAuth redirect URIs.

    Percent-decoding follows section 2.1 of RFC 3986 as `unquote` implements it, and dot segments are
    removed by the algorithm of section 5.2.4 of RFC 3986. URLs arrive already split into components; a
    malformed authority arrives as no components at all. How a run of non-ASCII bytes decodes is a
    parameter, constrained only to yield non-ASCII characters, at most one a byte. */
module Redirect {
  import opened Prelude

  datatype Url = Url(scheme: string, username: string, password: string, hostname: string, port: Option<int>, path: string)

  type Utf8 = seq<int> -> string

  ghost predicate Decoder(u: Utf8) {
    forall bs | bs != [] && (forall i | 0 <= i < |bs| :: bs[i] >= 128) ::
      |u(bs)| <= |bs| && forall i | 0 <= i < |u(bs)| :: (u(bs)[i] as int) >= 128
  }

  // ----- percent-decoding -----

  function HexValue(c: char): int {
    if '0' <= c <= '9' then c as int - '0' as int
    else if 'a' <= c <= 'f' then c as int - 'a' as int + 10
    else if 'A' <= c <= 'F' then c as int - 'A' as int + 10
    else -1
  }

  predicate IsEscape(s: string) { |s| >= 3 && s[0] == '%' && HexValue(s[1]) >= 0 && HexValue(s[2]) >= 0 }

  function Byte(s: string): (b: int)
    requires IsEscape(s)
    ensures 0 <= b < 256
  {
    HexValue(s[1]) * 16 + HexValue(s[2])
  }

  /** The bytes above 127 that a run of consecutive escapes spells. */
  function HighRun(s: string): (bs: seq<int>)
    ensures forall i | 0 <= i < |bs| :: bs[i] >= 128
    ensures 3 * |bs| <= |s|
  {
    if IsEscape(s) && Byte(s) >= 128 then [Byte(s)] + HighRun(s[3..]) else []
  }

  /** One layer of percent-decoding; malformed escapes stay as they are. */
  function Decode(u: Utf8, s: string): string
    decreases |s|
  {
    if s == [] then []
    else if !IsEscape(s) then [s[0]] + Decode(u, s[1..])
    else if Byte(s) < 128 then [Byte(s) as char] + Decode(u, s[3..])
    else u(HighRun(s)) + Decode(u, s[3 * |HighRun(s)|..])
  }

  function Layers(u: Utf8, s: string, k: nat): string { if k == 0 then s else Decode(u, Layers(u, s, k - 1)) }

  // ----- path segments -----

  function SlashAt(s: string): nat
    requires '/' in s
    ensures SlashAt(s) < |s| && s[SlashAt(s)] == '/' && '/' !in s[..SlashAt(s)]
  {
    if s[0] == '/' then 0 else assert s[1..][..SlashAt(s[1..])] == s[1..1 + SlashAt(s[1..])]; 1 + SlashAt(s[1..])
  }

  function Segments(s: string): seq<string> {
    if '/' !in s then [s] else [s[..SlashAt(s)]] + Segments(s[SlashAt(s) + 1..])
  }

  /** No segment of the path is `..`. */
  predicate Flat(s: string) { ".." !in Segments(s) }

  /** `out` up to but not including its last slash. */
  function TrimLast(out: string): string {
    if out == [] then [] else if out[|out| - 1] == '/' then out[..|out| - 1] else TrimLast(out[..|out| - 1])
  }

  /** The length of the first segment, with its leading slash if there is one. */
  function FirstLen(s: string): nat
    requires s != []
    ensures 1 <= FirstLen(s) <= |s| || s[0] != '/'
    ensures FirstLen(s) <= |s|
  {
    if s[0] == '/' then (if '/' in s[1..] then 1 + SlashAt(s[1..]) else |s|)
    else if '/' in s then SlashAt(s) else |s|
  }

  /** Section 5.2.4 of RFC 3986, with the output buffer as an argument. */
  function RemoveDots(input: string, out: string): string
    decreases |input|
  {
    if input == [] then out
    else if StartsWith(input, "../") then RemoveDots(input[3..], out)
    else if StartsWith(input, "./") then RemoveDots(input[2..], out)
    else if StartsWith(input, "/./") then RemoveDots(input[2..], out)
    else if input == "/." then RemoveDots("/", out)
    else if StartsWith(input, "/../") then RemoveDots(input[3..], TrimLast(out))
    else if input == "/.." then RemoveDots("/", TrimLast(out))
    else if input == "." || input == ".." then out
    else RemoveDots(input[FirstLen(input)..], out + input[..FirstLen(input)])
  }

  // ----- the predicate under study -----

  /** The prefix path, anchored at a segment boundary. */
  function Anchored(p: string): string { if p != [] && p[|p| - 1] == '/' then p else p + "/" }

  function PortOr443(p: Option<int>): int { if p.None? then 443 else p.value }

  predicate SameOrigin(got: Url, want: Url) {
    && got.scheme == "https" && got.username == "" && got.password == ""
    && got.hostname != "" && got.hostname == want.hostname && PortOr443(got.port) == PortOr443(want.port)
  }

  ghost predicate Admits(u: Utf8, got: Option<Url>, want: Option<Url>) {
    && got.Some? && want.Some? && SameOrigin(got.value, want.value)
    && Flat(Layers(u, got.value.path, 5))
    && StartsWith(got.value.path, Anchored(want.value.path))
  }

  /** Decode until nothing changes, five times at most, then decide. */
  method RedirectUnderPrefix(u: Utf8, got: Option<Url>, want: Option<Url>) returns (ok: bool)
    ensures ok <==> Admits(u, got, want)
  {
    if got.None? || want.None? { return false; }
    var decoded := got.value.path;
    for i := 0 to 5
      invariant decoded == Layers(u, got.value.path, i)
    {
      var step := Decode(u, decoded);
      if step == decoded {
        FixedFrom(u, got.value.path, i, 5);
        assert decoded == Layers(u, got.value.path, 5);
        return SameOrigin(got.value, want.value) && Flat(decoded) && StartsWith(got.value.path, Anchored(want.value.path));
      }
      decoded := step;
    }
    return SameOrigin(got.value, want.value) && Flat(decoded) && StartsWith(got.value.path, Anchored(want.value.path));
  }

  lemma {:induction false} FixedFrom(u: Utf8, s: string, i: nat, k: nat)
    requires i <= k && Decode(u, Layers(u, s, i)) == Layers(u, s, i)
    ensures Layers(u, s, k) == Layers(u, s, i)
    decreases k
  {
    if i < k { FixedFrom(u, s, i, k - 1); }
  }

  datatype CloudClient = CloudClient(exact: bool, redirect: Option<Url>)

  /** Prefix clients are matched by prefix; every other client by the stock exact match. */
  method ValidateRedirectUri(u: Utf8, clients: map<string, CloudClient>, clientId: string, redirect: Option<Url>, stock: bool)
    returns (ok: bool)
    ensures clientId in clients && !clients[clientId].exact ==> (ok <==> Admits(u, redirect, clients[clientId].redirect))
    ensures clientId !in clients || clients[clientId].exact ==> (ok <==> stock)
  {
    if clientId in clients && !clients[clientId].exact {
      ok := RedirectUnderPrefix(u, redirect, clients[clientId].redirect);
    } else {
      ok := stock;
    }
  }

  // ----- what decoding is -----

  const LOWER: string := "0123456789abcdef"
  const UPPER: string := "0123456789ABCDEF"

  /** The hexadecimal digit of `d` in either case. */
  function HexDigit(d: nat, upper: bool): char
    requires d < 16
  {
    if upper then UPPER[d] else LOWER[d]
  }

  /** Every byte percent-encoded; `cases` chooses upper or lower case for each of its two digits. */
  function Encoded(bs: seq<int>, cases: seq<(bool, bool)>): string
    requires |bs| == |cases| && forall i | 0 <= i < |bs| :: 0 <= bs[i] < 256
  {
    if bs == [] then []
    else ['%', HexDigit(bs[0] / 16, cases[0].0), HexDigit(bs[0] % 16, cases[0].1)] + Encoded(bs[1..], cases[1..])
  }

  function Chars(bs: seq<int>): string
    requires forall i | 0 <= i < |bs| :: 0 <= bs[i] < 128
  {
    seq(|bs|, i requires 0 <= i < |bs| => bs[i] as char)
  }

  lemma HexRoundTrip(d: nat, upper: bool)
    requires d < 16
    ensures HexValue(HexDigit(d, upper)) == d
  {
  }

  lemma EscapeOf(bs: seq<int>, cases: seq<(bool, bool)>, rest: string)
    requires |bs| == |cases| && (forall i | 0 <= i < |bs| :: 0 <= bs[i] < 256) && bs != []
    ensures var s := Encoded(bs, cases) + rest;
            IsEscape(s) && Byte(s) == bs[0] && s[3..] == Encoded(bs[1..], cases[1..]) + rest
  {
    HexRoundTrip(bs[0] / 16, cases[0].0);
    HexRoundTrip(bs[0] % 16, cases[0].1);
    hide HexDigit, HexValue;
    var head, tail := ['%', HexDigit(bs[0] / 16, cases[0].0), HexDigit(bs[0] % 16, cases[0].1)], Encoded(bs[1..], cases[1..]);
    assert head + tail + rest == head + (tail + rest);
  }

  /** Decoding gives back ASCII text of which any part was percent-encoded, in digits of either case. */
  lemma {:induction false} DecodesAscii(u: Utf8, bs: seq<int>, cases: seq<(bool, bool)>, rest: string)
    requires |bs| == |cases| && forall i | 0 <= i < |bs| :: 0 <= bs[i] < 128
    ensures Decode(u, Encoded(bs, cases) + rest) == Chars(bs) + Decode(u, rest)
    decreases |bs|
  {
    var s := Encoded(bs, cases) + rest;
    if bs == [] {
      assert s == rest;
    } else {
      EscapeOf(bs, cases, rest);
      DecodeOne(u, s);
      DecodesAscii(u, bs[1..], cases[1..], rest);
      hide Encoded, Decode, IsEscape, Byte;
      assert Chars(bs) == [bs[0] as char] + Chars(bs[1..]);
      Regroup([bs[0] as char], Chars(bs[1..]), Decode(u, rest));
    }
  }

  lemma DecodeOne(u: Utf8, s: string)
    requires s != []
    ensures !IsEscape(s) ==> Decode(u, s) == [s[0]] + Decode(u, s[1..])
    ensures IsEscape(s) && Byte(s) < 128 ==> Decode(u, s) == [Byte(s) as char] + Decode(u, s[3..])
  {
  }

  /** A run of encoded bytes above 127 is decoded as one, up to where the run ends. */
  lemma DecodesHighRun(u: Utf8, bs: seq<int>, cases: seq<(bool, bool)>, rest: string)
    requires |bs| == |cases| && (forall i | 0 <= i < |bs| :: 128 <= bs[i] < 256) && bs != []
    requires HighRun(rest) == []
    ensures Decode(u, Encoded(bs, cases) + rest) == u(bs) + Decode(u, rest)
  {
    HighRunOf(bs, cases, rest);
    EscapeOf(bs, cases, rest);
  }

  lemma DropTwice<T>(s: seq<T>, i: nat, j: nat)
    requires i + j <= |s|
    ensures s[i..][j..] == s[i + j..]
  {
  }

  lemma {:induction false} HighRunOf(bs: seq<int>, cases: seq<(bool, bool)>, rest: string)
    requires |bs| == |cases| && (forall i | 0 <= i < |bs| :: 128 <= bs[i] < 256) && HighRun(rest) == []
    ensures HighRun(Encoded(bs, cases) + rest) == bs
    ensures (Encoded(bs, cases) + rest)[3 * |bs|..] == rest
  {
    if bs == [] {
      assert Encoded(bs, cases) + rest == rest;
    } else {
      EscapeOf(bs, cases, rest);
      HighRunOf(bs[1..], cases[1..], rest);
      hide Encoded, IsEscape, Byte;
      assert bs == [bs[0]] + bs[1..];
      DropTwice(Encoded(bs, cases) + rest, 3, 3 * |bs[1..]|);
    }
  }

  predicate HexDigitChar(c: char) { c in LOWER || c in UPPER }

  /** Everything else stays as it is: a character other than the percent sign, and a percent sign that two
      hexadecimal digits do not follow. */
  lemma DecodesNothingElse(u: Utf8, s: string)
    requires s != [] && (s[0] != '%' || |s| < 3 || !HexDigitChar(s[1]) || !HexDigitChar(s[2]))
    ensures Decode(u, s) == [s[0]] + Decode(u, s[1..])
  {
    hide Decode, HexDigitChar, HexValue, IsEscape;
    NoEscape(s);
    DecodeOne(u, s);
  }

  lemma NoEscape(s: string)
    requires s != [] && (s[0] != '%' || |s| < 3 || !HexDigitChar(s[1]) || !HexDigitChar(s[2]))
    ensures !IsEscape(s)
  {
    if |s| >= 3 {
      DigitsListed(s[1]);
      DigitsListed(s[2]);
    }
    hide HexValue, HexDigitChar;
  }

  lemma DigitsListed(c: char)
    ensures HexValue(c) >= 0 ==> HexDigitChar(c)
  {
    var v := HexValue(c);
    if v >= 0 { assert c == LOWER[v] || c == UPPER[v]; }
  }

  // ----- decoding and slashes -----

  lemma {:induction false} HighRunSplit(a: string, b: string)
    ensures HighRun(a + "/" + b) == HighRun(a)
    decreases |a|
  {
    var s := a + "/" + b;
    EscapeSplit(a, b);
    if IsEscape(a) && Byte(a) >= 128 {
      assert s[3..] == a[3..] + "/" + b;
      HighRunSplit(a[3..], b);
    }
  }

  /** An escape does not reach across a slash. */
  lemma EscapeSplit(a: string, b: string)
    ensures IsEscape(a + "/" + b) <==> IsEscape(a)
    ensures IsEscape(a) ==> Byte(a + "/" + b) == Byte(a)
  {
    var s := a + "/" + b;
    assert s[|a|] == '/';
    assert forall i | 0 <= i < |a| :: s[i] == a[i];
  }

  /** How much of the input one step of decoding reads, and what it writes. */
  function Width(s: string): nat { if !IsEscape(s) then 1 else if Byte(s) < 128 then 3 else 3 * |HighRun(s)| }

  function Written(u: Utf8, s: string): string
    requires s != []
  {
    if !IsEscape(s) then [s[0]] else if Byte(s) < 128 then [Byte(s) as char] else u(HighRun(s))
  }

  lemma DecodeStep(u: Utf8, s: string)
    requires s != []
    ensures 1 <= Width(s) <= |s| && Decode(u, s) == Written(u, s) + Decode(u, s[Width(s)..])
  {
  }

  lemma StepSplit(u: Utf8, a: string, b: string)
    requires a != []
    ensures Width(a + "/" + b) == Width(a) && Written(u, a + "/" + b) == Written(u, a)
  {
    EscapeSplit(a, b);
    HighRunSplit(a, b);
  }

  lemma SlashDecodes(u: Utf8, b: string)
    ensures Decode(u, "" + "/" + b) == "" + "/" + Decode(u, b)
  {
    var s := "" + "/" + b;
    assert !IsEscape(s) && s[0] == '/' && s[1..] == b;
  }

  lemma RegroupSlash(x: string, y: string, z: string)
    ensures x + (y + "/" + z) == x + y + "/" + z
  {
  }

  /** Decoding acts on the two sides of a slash separately. */
  lemma {:induction false} DecodeSplit(u: Utf8, a: string, b: string)
    ensures Decode(u, a + "/" + b) == Decode(u, a) + "/" + Decode(u, b)
    decreases |a|
  {
    if a == [] {
      SlashDecodes(u, b);
    } else {
      hide Decode, Width, Written;
      var s := a + "/" + b;
      DecodeStep(u, s);
      DecodeStep(u, a);
      StepSplit(u, a, b);
      var k := Width(a);
      assert s[k..] == a[k..] + "/" + b;
      DecodeSplit(u, a[k..], b);
      RegroupSlash(Written(u, a), Decode(u, a[k..]), Decode(u, b));
    }
  }

  lemma {:induction false} LayersSplit(u: Utf8, a: string, b: string, k: nat)
    ensures Layers(u, a + "/" + b, k) == Layers(u, a, k) + "/" + Layers(u, b, k)
  {
    if k > 0 {
      LayersSplit(u, a, b, k - 1);
      DecodeSplit(u, Layers(u, a, k - 1), Layers(u, b, k - 1));
    }
  }

  lemma {:induction false} SlashAtSplit(a: string, b: string)
    requires '/' !in a
    ensures '/' in a + "/" + b && SlashAt(a + "/" + b) == |a|
  {
    var s := a + "/" + b;
    assert s[|a|] == '/';
    if a != [] {
      assert s[0] == a[0] && s[1..] == a[1..] + "/" + b;
      SlashAtSplit(a[1..], b);
    }
  }

  /** The first segment ends at the first slash. */
  lemma SegmentsFirst(x: string, rest: string)
    requires '/' !in x
    ensures Segments(x + "/" + rest) == [x] + Segments(rest)
  {
    var s := x + "/" + rest;
    SlashAtSplit(x, rest);
    assert s[..|x|] == x && s[|x| + 1..] == rest;
  }

  lemma RegroupSlashes(x: string, y: string, b: string)
    ensures x + "/" + y + "/" + b == x + "/" + (y + "/" + b)
  {
  }

  /** The segments of a path are those on either side of any slash. */
  lemma {:induction false} SegmentsSplit(a: string, b: string)
    ensures Segments(a + "/" + b) == Segments(a) + Segments(b)
    decreases |a|
  {
    if '/' !in a {
      SegmentsFirst(a, b);
    } else {
      var i := SlashAt(a);
      var x, y := a[..i], a[i + 1..];
      assert a == x + "/" + y;
      hide Segments, SlashAt;
      SegmentsFirst(x, y);
      SegmentsFirst(x, y + "/" + b);
      SegmentsSplit(y, b);
      RegroupSlashes(x, y, b);
      Regroup([x], Segments(y), Segments(b));
    }
  }

  lemma FlatSplit(a: string, b: string)
    ensures Flat(a + "/" + b) <==> Flat(a) && Flat(b)
  {
    SegmentsSplit(a, b);
    assert forall x :: x in Segments(a) + Segments(b) <==> x in Segments(a) || x in Segments(b);
  }

  lemma DotDotDecodes(u: Utf8)
    ensures Decode(u, "..") == ".." && Segments("..") == [".."] && !Flat("..")
  {
    assert ".."[1..] == "." && "."[1..] == "";
    assert Decode(u, ".") == "." + Decode(u, "");
  }

  /** A `..` segment survives decoding. */
  lemma {:induction false} DecodeKeepsDotDot(u: Utf8, s: string)
    requires !Flat(s)
    ensures !Flat(Decode(u, s))
    decreases |s|
  {
    if '/' !in s {
      assert s == "..";
      DotDotDecodes(u);
    } else {
      var i := SlashAt(s);
      var a, b := s[..i], s[i + 1..];
      assert s == a + "/" + b;
      DecodeSplit(u, a, b);
      FlatSplit(a, b);
      FlatSplit(Decode(u, a), Decode(u, b));
      if !Flat(a) { DecodeKeepsDotDot(u, a); } else { DecodeKeepsDotDot(u, b); }
    }
  }

  /** So a path without `..` at some layer has none at any earlier one. */
  lemma {:induction false} FlatBelow(u: Utf8, s: string, i: nat, k: nat)
    requires i <= k && Flat(Layers(u, s, k))
    ensures Flat(Layers(u, s, i))
    decreases k
  {
    if i < k {
      if !Flat(Layers(u, s, k - 1)) {
        DecodeKeepsDotDot(u, Layers(u, s, k - 1));
      } else {
        FlatBelow(u, s, i, k - 1);
      }
    }
  }

  /** Each layer that changes a path shortens it, so decoding settles. */
  lemma {:induction false} DecodeShortens(u: Utf8, s: string)
    requires Decoder(u)
    ensures Decode(u, s) == s || |Decode(u, s)| < |s|
    ensures |Decode(u, s)| <= |s|
    decreases |s|
  {
    if s == [] {
    } else if !IsEscape(s) {
      DecodeShortens(u, s[1..]);
    } else if Byte(s) < 128 {
      DecodeShortens(u, s[3..]);
    } else {
      var bs := HighRun(s);
      assert bs != [];
      DecodeShortens(u, s[3 * |bs|..]);
    }
  }

  /** After as many layers as the path has characters, nothing is left to decode. */
  lemma {:induction false} DecodingSettles(u: Utf8, s: string, k: nat)
    requires Decoder(u)
    ensures Decode(u, Layers(u, s, k)) == Layers(u, s, k) || |Layers(u, s, k)| + k <= |s|
    ensures k > |s| ==> Decode(u, Layers(u, s, k)) == Layers(u, s, k)
  {
    if k > 0 {
      DecodingSettles(u, s, k - 1);
      DecodeShortens(u, Layers(u, s, k - 1));
    }
  }

  // ----- dot segments -----

  lemma PrefixSplit(s: string, p: string)
    requires StartsWith(s, p)
    ensures s == p + s[|p|..]
  {
  }

  /** What the dot-segment rules see of a path without `..`: none of its `..` rules applies, and what
      each other rule leaves is again without `..`. */
  lemma FlatRules(s: string)
    requires Flat(s) && s != []
    ensures !StartsWith(s, "../") && !StartsWith(s, "/../") && s != "/.." && s != ".."
    ensures StartsWith(s, "./") ==> Flat(s[2..])
    ensures StartsWith(s, "/./") ==> Flat(s[2..])
    ensures Flat("/") && Flat(s[FirstLen(s)..])
  {
    hide Segments, FirstLen, Flat;
    Basics();
    UpRulesDead(s);
    DotRulesKeep(s);
    RestFlat(s);
  }

  lemma UpRulesDead(s: string)
    requires Flat(s)
    ensures !StartsWith(s, "../") && !StartsWith(s, "/../") && s != "/.." && s != ".."
  {
    hide Segments, Flat;
    Basics();
    assert "/.." == "" + "/" + "..";
    FlatSplit("", "..");
    assert ".." + "/" == "../" && "/.." + "/" == "/../";
    if StartsWith(s, "../") { CutAt(s, ".."); }
    if StartsWith(s, "/../") { CutAt(s, "/.."); }
  }

  lemma DotRulesKeep(s: string)
    requires Flat(s)
    ensures StartsWith(s, "./") || StartsWith(s, "/./") ==> Flat(s[2..])
  {
    hide Segments, Flat;
    Basics();
    assert "." + "/" == "./" && "/." + "/" == "/./";
    if StartsWith(s, "./") {
      CutAt(s, ".");
    } else if StartsWith(s, "/./") {
      CutAt(s, "/.");
      FlatSplit("", s[3..]);
      assert s[2..] == "" + "/" + s[3..];
    }
  }

  lemma Basics()
    ensures Segments("") == [""] && Flat("") && Segments("..") == [".."] && !Flat("..")
    ensures Flat("/")
  {
    assert "/" == "" + "/" + "";
    FlatSplit("", "");
  }

  /** A path that goes on with a slash after `p` splits there. */
  lemma CutAt(s: string, p: string)
    requires StartsWith(s, p + "/") && Flat(s)
    ensures Flat(p) && Flat(s[|p| + 1..])
  {
    assert s == p + "/" + s[|p| + 1..] by { PrefixSplit(s, p + "/"); }
    FlatSplit(p, s[|p| + 1..]);
  }

  lemma RestFlat(s: string)
    requires Flat(s) && s != []
    ensures Flat(s[FirstLen(s)..])
  {
    Basics();
    var k := FirstLen(s);
    if k < |s| {
      assert s[k] == '/';
      TailFlat(s, k);
    } else {
      assert s[k..] == "";
    }
  }

  lemma TailFlat(s: string, k: nat)
    requires Flat(s) && k < |s| && s[k] == '/'
    ensures Flat(s[k..])
  {
    hide Segments, Flat;
    var a, b := s[..k], s[k + 1..];
    assert s == a + "/" + b;
    FlatSplit(a, b);
    assert s[k..] == "" + "/" + b;
    FlatSplit("", b);
    Basics();
  }

  lemma StartsTrans(a: string, b: string, c: string)
    requires StartsWith(a, b) && StartsWith(b, c)
    ensures StartsWith(a, c)
  {
    assert a[..|b|][..|c|] == a[..|c|];
  }

  // Whatever the path, the rules leave no dot segment.

  predicate Dotted(x: string) { x == "." || x == ".." }

  ghost predicate Clean(s: string) { forall x | x in Segments(s) :: !Dotted(x) }

  lemma CleanSplit(a: string, b: string)
    ensures Clean(a + "/" + b) <==> Clean(a) && Clean(b)
  {
    SegmentsSplit(a, b);
    assert forall x :: x in Segments(a) + Segments(b) <==> x in Segments(a) || x in Segments(b);
  }

  lemma CleanWord(x: string)
    requires '/' !in x
    ensures Clean(x) <==> !Dotted(x)
  {
    assert Segments(x) == [x] && x in [x];
  }

  lemma {:induction false} CleanTrim(out: string)
    requires Clean(out)
    ensures Clean(TrimLast(out))
  {
    hide Clean, TrimLast;
    TrimCuts(out);
    CleanWord("");
    if TrimLast(out) != "" {
      var k := |TrimLast(out)|;
      assert out == TrimLast(out) + "/" + out[k + 1..];
      CleanSplit(TrimLast(out), out[k + 1..]);
    }
  }

  lemma {:induction false} TrimCuts(out: string)
    ensures TrimLast(out) == "" || (|TrimLast(out)| < |out| && out[..|TrimLast(out)|] == TrimLast(out) && out[|TrimLast(out)|] == '/')
  {
    if out != "" && out[|out| - 1] != '/' { TrimCuts(out[..|out| - 1]); }
  }

  /** The first segment of an ordinary path, with its slash, adds no dot segment. */
  lemma CleanMove(s: string, out: string)
    requires Ordinary(s) && Clean(out) && (out == "" || s[0] == '/')
    ensures var k := FirstLen(s); Clean(out + s[..k]) && (s[k..] == "" || s[k] == '/') && k > 0
  {
    var k := FirstLen(s);
    hide Clean;
    FirstWord(s);
    if s[0] == '/' {
      var x := s[1..k];
      assert s == "/" + x + s[k..];
      if Dotted(x) { DottedNotOrdinary(s, "/", x, s[k..]); }
      CleanWord(x);
      assert out + s[..k] == out + "/" + x;
      CleanSplit(out, x);
    } else {
      assert s == "" + s[..k] + s[k..];
      if Dotted(s[..k]) { DottedNotOrdinary(s, "", s[..k], s[k..]); }
      CleanWord(s[..k]);
      assert out + s[..k] == s[..k];
    }
  }

  lemma FirstWord(s: string)
    requires s != ""
    ensures var k := FirstLen(s);
            && 0 < k && (s[0] == '/' ==> '/' !in s[1..k]) && (s[0] != '/' ==> '/' !in s[..k])
            && (s[k..] == "" || s[k] == '/')
  {
    hide Segments;
    if s[0] == '/' && '/' in s[1..] { assert s[1..][..SlashAt(s[1..])] == s[1..FirstLen(s)]; }
  }

  lemma DottedNotOrdinary(s: string, slash: string, x: string, rest: string)
    requires s == slash + x + rest && (slash == "" || slash == "/") && (rest == "" || rest[0] == '/') && Dotted(x)
    ensures !Ordinary(s)
  {
    if rest == "" {
      assert s == slash + x;
    } else {
      var head := slash + x + "/";
      assert s[..|head|] == head;
    }
    assert "" + "." + "/" == "./" && "" + ".." + "/" == "../" && "/" + "." + "/" == "/./" && "/" + ".." + "/" == "/../";
  }

  /** Removing dot segments leaves none, `.` or `..`, in any path. */
  lemma {:induction false} NoDotsLeft(s: string, out: string)
    requires Clean(out) && (out == "" || s == "" || s[0] == '/')
    ensures Clean(RemoveDots(s, out))
    decreases |s|
  {
    hide Clean, FirstLen, TrimLast;
    CleanTrim(out);
    if s == "" {
    } else if StartsWith(s, "../") {
      NoDotsLeft(s[3..], out);
    } else if StartsWith(s, "./") || StartsWith(s, "/./") {
      NoDotsLeft(s[2..], out);
    } else if s == "/." {
      NoDotsLeft("/", out);
    } else if StartsWith(s, "/../") {
      NoDotsLeft(s[3..], TrimLast(out));
    } else if s == "/.." {
      NoDotsLeft("/", TrimLast(out));
    } else if s != "." && s != ".." {
      CleanMove(s, out);
      NoDotsLeft(s[FirstLen(s)..], out + s[..FirstLen(s)]);
    }
  }

  /** Without `..` the output only grows. */
  lemma {:induction false} OutputGrows(s: string, out: string)
    requires Flat(s)
    ensures StartsWith(RemoveDots(s, out), out)
    decreases |s|
  {
    if s != [] {
      FlatRules(s);
      if StartsWith(s, "./") {
        OutputGrows(s[2..], out);
      } else if StartsWith(s, "/./") {
        OutputGrows(s[2..], out);
      } else if s == "/." {
        OutputGrows("/", out);
      } else if s != "." {
        var k := FirstLen(s);
        OutputGrows(s[k..], out + s[..k]);
        StartsTrans(RemoveDots(s, out), out + s[..k], out);
      }
    }
  }

  lemma SlashAlone(out: string)
    ensures RemoveDots("/", out) == out + "/"
  {
    assert "/"[1..] == "" && FirstLen("/") == 1;
    assert "/"[..1] == "/";
  }

  /** Without `..` a leading slash reaches the output. */
  lemma {:induction false} SlashKept(s: string, out: string)
    requires Flat(s) && s != [] && s[0] == '/'
    ensures StartsWith(RemoveDots(s, out), out + "/")
    decreases |s|
  {
    hide Flat, Segments, SlashAt;
    FlatRules(s);
    SlashAlone(out);
    if StartsWith(s, "/./") {
      SlashKept(s[2..], out);
    } else if s != "/." {
      var k := FirstLen(s);
      OutputGrows(s[k..], out + s[..k]);
      StartsTrans(RemoveDots(s, out), out + s[..k], out + "/");
    }
  }

  /** The text before the first slash, in characters. */
  function Until(s: string): nat { if '/' in s then SlashAt(s) else |s| }

  /** The first segment of `a` and its leading slash, in characters. */
  function Lead(a: string): nat
    requires a != []
  {
    if a[0] == '/' then 1 + Until(a[1..]) else Until(a)
  }

  lemma FirstLenSplit(a: string, b: string)
    requires a != []
    ensures FirstLen(a + "/" + b) == FirstLen(a + "/" + "") == Lead(a)
  {
    FirstLenOf(a, b);
    FirstLenOf(a, "");
  }

  lemma FirstLenOf(a: string, b: string)
    requires a != []
    ensures FirstLen(a + "/" + b) == Lead(a)
  {
    hide Until, FirstLen, SlashAt;
    var s := a + "/" + b;
    assert s[0] == a[0] && s[1..] == a[1..] + "/" + b;
    if a[0] == '/' {
      SlashFront(a[1..], b);
      FirstLenAfterSlash(s);
    } else {
      SlashFront(a, b);
      FirstLenNoSlash(s);
    }
  }

  lemma FirstLenAfterSlash(s: string)
    requires s != [] && s[0] == '/' && '/' in s[1..]
    ensures FirstLen(s) == 1 + SlashAt(s[1..])
  {
  }

  lemma FirstLenNoSlash(s: string)
    requires s != [] && s[0] != '/' && '/' in s
    ensures FirstLen(s) == SlashAt(s)
  {
  }

  lemma SlashFront(a: string, b: string)
    ensures '/' in a + "/" + b && SlashAt(a + "/" + b) == Until(a)
  {
    if '/' in a {
      var i := SlashAt(a);
      assert a + "/" + b == a[..i] + "/" + (a[i + 1..] + "/" + b);
      SlashAtSplit(a[..i], a[i + 1..] + "/" + b);
    } else {
      SlashAtSplit(a, b);
    }
  }

  /** No rule but the last applies: the path opens with an ordinary segment. */
  predicate Ordinary(s: string) {
    && s != [] && !StartsWith(s, "../") && !StartsWith(s, "./") && !StartsWith(s, "/./") && !StartsWith(s, "/../")
    && s != "/." && s != "/.." && s != "." && s != ".."
  }

  lemma MoveSegment(s: string, out: string)
    requires Ordinary(s)
    ensures RemoveDots(s, out) == RemoveDots(s[FirstLen(s)..], out + s[..FirstLen(s)])
  {
  }

  lemma DropDot(s: string, out: string)
    requires StartsWith(s, "./") || StartsWith(s, "/./")
    ensures RemoveDots(s, out) == RemoveDots(s[2..], out)
  {
    assert StartsWith(s, "./") ==> s[0] == '.' && s[1] == '/';
  }

  /** The rules, character by character. */
  lemma Opening(s: string)
    ensures StartsWith(s, "./") <==> |s| >= 2 && s[0] == '.' && s[1] == '/'
    ensures StartsWith(s, "../") <==> |s| >= 3 && s[0] == '.' && s[1] == '.' && s[2] == '/'
    ensures StartsWith(s, "/./") <==> |s| >= 3 && s[0] == '/' && s[1] == '.' && s[2] == '/'
    ensures StartsWith(s, "/../") <==> |s| >= 4 && s[0] == '/' && s[1] == '.' && s[2] == '.' && s[3] == '/'
    ensures s == "." <==> |s| == 1 && s[0] == '.'
    ensures s == "/." <==> |s| == 2 && s[0] == '/' && s[1] == '.'
  {
    if |s| >= 2 { assert s[..2] == [s[0], s[1]]; }
    if |s| >= 3 { assert s[..3] == [s[0], s[1], s[2]]; }
    if |s| >= 4 { assert s[..4] == [s[0], s[1], s[2], s[3]]; }
    if |s| == 1 { assert s == [s[0]]; }
    if |s| == 2 { assert s == [s[0], s[1]]; }
  }

  /** Followed by a slash and more, `a` opens with a dot segment or with an ordinary one. */
  lemma OpensAlike(a: string, b: string)
    requires Flat(a + "/" + b) && a != []
    ensures var s := a + "/" + b;
            if a == "." || StartsWith(a, "./") then StartsWith(s, "./")
            else if a == "/." || StartsWith(a, "/./") then StartsWith(s, "/./")
            else Ordinary(s)
  {
    var s := a + "/" + b;
    FlatRules(s);
    Opening(s);
    Opening(a);
    hide Flat, Segments, FirstLen, StartsWith;
    assert |s| >= 2 && s[|a|] == '/';
    assert forall i | 0 <= i < |a| :: s[i] == a[i];
  }

  /** Without `..` a directory's normal form is a prefix of the normal form of everything under it. */
  lemma {:induction false} NormalPrefix(a: string, b: string, out: string)
    requires Flat(a + "/" + b)
    ensures StartsWith(RemoveDots(a + "/" + b, out), RemoveDots(a + "/", out))
    decreases |a|
  {
    hide RemoveDots, Segments, Flat, FirstLen, SlashAt;
    var s, d := a + "/" + b, a + "/";
    assert d == a + "/" + "";
    Basics();
    FlatSplit(a, b);
    FlatSplit(a, "");
    if a == [] {
      assert s == "/" + b && d == "/";
      SlashAlone(out);
      SlashKept(s, out);
    } else {
      OpensAlike(a, b);
      OpensAlike(a, "");
      if a == "." {
        assert s[2..] == b && d[2..] == "";
        DropDot(s, out);
        DropDot(d, out);
        NothingLeft(out);
        OutputGrows(b, out);
      } else if a == "/." || StartsWith(a, "./") || StartsWith(a, "/./") {
        assert s[2..] == a[2..] + "/" + b && d[2..] == a[2..] + "/";
        DropDot(s, out);
        DropDot(d, out);
        FlatRules(s);
        NormalPrefix(a[2..], b, out);
      } else {
        NormalStep(a, b, out);
      }
    }
  }

  lemma NothingLeft(out: string)
    ensures RemoveDots("", out) == out
  {
  }

  /** The step that moves one ordinary segment to the output. */
  lemma {:induction false} NormalStep(a: string, b: string, out: string)
    requires Flat(a + "/" + b) && a != [] && Ordinary(a + "/" + b) && Ordinary(a + "/")
    ensures StartsWith(RemoveDots(a + "/" + b, out), RemoveDots(a + "/", out))
    decreases |a|, 0
  {
    hide RemoveDots, Segments, Flat, SlashAt, FirstLen;
    var s, d := a + "/" + b, a + "/";
    assert d == a + "/" + "";
    FirstLenBounds(a, b);
    var k := FirstLen(s);
    assert s[..k] == a[..k] && d[..k] == a[..k];
    assert s[k..] == a[k..] + "/" + b && d[k..] == a[k..] + "/";
    RestFlat(s);
    MoveSegment(s, out);
    MoveSegment(d, out);
    NormalPrefix(a[k..], b, out + a[..k]);
  }

  lemma FirstLenBounds(a: string, b: string)
    requires a != [] && Ordinary(a + "/" + b)
    ensures FirstLen(a + "/" + b) == FirstLen(a + "/") && 1 <= FirstLen(a + "/") <= |a|
  {
    FirstLenSplit(a, b);
    assert a + "/" + "" == a + "/";
  }

  // ----- the theorems -----

  /** Decoded `k` times and freed of dot segments, the path is under the equally treated prefix. */
  ghost predicate Below(u: Utf8, path: string, want: string, k: nat) {
    StartsWith(RemoveDots(Layers(u, path, k), ""), RemoveDots(Layers(u, want, k), ""))
  }

  /** Redirect containment: whatever is admitted stays under the equally treated prefix at each of the
      first five layers of decoding, after dot-segment removal, and on the prefix's own origin. */
  lemma RedirectContained(u: Utf8, got: Option<Url>, want: Option<Url>, k: nat)
    requires Admits(u, got, want) && k <= 5
    ensures Below(u, got.value.path, Anchored(want.value.path), k)
    ensures SameOrigin(got.value, want.value)
  {
    FlatBelow(u, got.value.path, k, 5);
    Contained(u, got.value.path, Anchored(want.value.path), k);
  }

  lemma Contained(u: Utf8, path: string, want: string, k: nat)
    requires Flat(Layers(u, path, k)) && StartsWith(path, want) && want != [] && want[|want| - 1] == '/'
    ensures Below(u, path, want, k)
  {
    hide Layers, Segments, Flat, RemoveDots;
    var dir, rest := want[..|want| - 1], path[|want|..];
    assert path == dir + "/" + rest && want == dir + "/" + "";
    LayersSplit(u, dir, rest, k);
    LayersSplit(u, dir, "", k);
    EmptyLayers(u, k);
    var a := Layers(u, dir, k);
    assert a + "/" + "" == a + "/";
    NormalPrefix(a, Layers(u, rest, k), "");
  }

  /** If a path below `want` has no `..` at some layer, neither has `want`. */
  lemma PrefixFlat(u: Utf8, path: string, want: string, k: nat)
    requires Flat(Layers(u, path, k)) && StartsWith(path, want) && want != [] && want[|want| - 1] == '/'
    ensures Flat(Layers(u, want, k))
  {
    hide Segments, Layers, Flat;
    var dir, rest := want[..|want| - 1], path[|want|..];
    assert path == dir + "/" + rest && want == dir + "/" + "";
    LayersSplit(u, dir, rest, k);
    LayersSplit(u, dir, "", k);
    EmptyLayers(u, k);
    FlatSplit(Layers(u, dir, k), Layers(u, rest, k));
    FlatSplit(Layers(u, dir, k), "");
    Basics();
  }

  lemma {:induction false} EmptyLayers(u: Utf8, k: nat)
    ensures Layers(u, "", k) == ""
  {
    if k > 0 { EmptyLayers(u, k - 1); }
  }

  /** A path has no `..` segment at any depth of decoding exactly when it has none once decoded as many
      times as it has characters, and once more; by then nothing is left to decode. */
  lemma FlatAtEveryDepth(u: Utf8, s: string)
    requires Decoder(u)
    ensures (forall k: nat :: Flat(Layers(u, s, k))) <==> Flat(Layers(u, s, |s| + 1))
  {
    hide Decode, Layers, Segments, Flat;
    if Flat(Layers(u, s, |s| + 1)) {
      DecodingSettles(u, s, |s| + 1);
      forall k: nat ensures Flat(Layers(u, s, k)) {
        if k <= |s| + 1 { FlatBelow(u, s, k, |s| + 1); } else { FixedFrom(u, s, |s| + 1, k); }
      }
    }
  }

  /** An admitted redirect whose path, fully decoded, has no `..` stays under the prefix at every depth. */
  lemma ContainedAtEveryDepth(u: Utf8, got: Option<Url>, want: Option<Url>, k: nat)
    requires Decoder(u) && Admits(u, got, want)
    requires Flat(Layers(u, got.value.path, |got.value.path| + 1))
    ensures Below(u, got.value.path, Anchored(want.value.path), k)
  {
    FlatAtEveryDepth(u, got.value.path);
    hide Decode, RemoveDots, Layers, Segments, Flat;
    Contained(u, got.value.path, Anchored(want.value.path), k);
  }

  /** Exactly when an admitted redirect stays under the prefix at every depth: when it does at those layers
      past the fifth, up to one more than the path has characters, where anything is left to decode. */
  lemma ContainedExactly(u: Utf8, got: Option<Url>, want: Option<Url>)
    requires Decoder(u) && Admits(u, got, want)
    ensures var path, prefix := got.value.path, Anchored(want.value.path);
            (forall k: nat :: Below(u, path, prefix, k)) <==> forall k: nat | 6 <= k <= |path| + 1 :: Below(u, path, prefix, k)
  {
    var path, prefix := got.value.path, Anchored(want.value.path);
    hide Below, Layers, Flat, Decode;
    if forall k: nat | 6 <= k <= |path| + 1 :: Below(u, path, prefix, k) {
      forall k: nat ensures Below(u, path, prefix, k) {
        if k <= 5 {
          RedirectContained(u, got, want, k);
        } else if k > |path| + 1 {
          BelowSettles(u, path, prefix, k);
          if |path| + 1 <= 5 { RedirectContained(u, got, want, |path| + 1); }
        }
      }
    }
  }

  lemma BelowSettles(u: Utf8, path: string, want: string, k: nat)
    requires Decoder(u) && |want| <= |path| && k > |path| + 1
    ensures Below(u, path, want, k) == Below(u, path, want, |path| + 1)
  {
    hide Layers, Decode, RemoveDots;
    DecodingSettles(u, path, |path| + 1);
    FixedFrom(u, path, |path| + 1, k);
    DecodingSettles(u, want, |path| + 1);
    FixedFrom(u, want, |path| + 1, k);
  }

  // ----- which redirects are admitted, in terms of their text -----

  predicate OpensSegment(s: string) { s == "" || s[|s| - 1] == '/' }

  predicate ClosesSegment(s: string) { s == "" || s[0] == '/' }

  /** Somewhere in the path `x` stands alone between slashes or ends of the path. */
  ghost predicate HasSegment(s: string, x: string) {
    exists a, b :: s == a + x + b && OpensSegment(a) && ClosesSegment(b)
  }

  lemma SegmentAt(s: string, a: string, x: string, b: string)
    requires s == a + x + b && OpensSegment(a) && ClosesSegment(b)
    ensures HasSegment(s, x)
  {
  }

  /** Splitting at slashes finds the `..` that stand alone. */
  lemma {:induction false} FlatMeansNoDotDot(s: string)
    ensures Flat(s) <==> !HasSegment(s, "..")
    decreases |s|
  {
    if HasSegment(s, "..") {
      var a, b :| s == a + ".." + b && OpensSegment(a) && ClosesSegment(b);
      StandsAlone(a, b);
    }
    if !Flat(s) { FindsDotDot(s); }
  }

  lemma StandsAlone(a: string, b: string)
    requires OpensSegment(a) && ClosesSegment(b)
    ensures !Flat(a + ".." + b)
  {
    hide Segments, Flat;
    Basics();
    if a == "" {
      assert a + ".." + b == ".." + b;
    } else {
      var dir := a[..|a| - 1];
      assert a + ".." + b == dir + "/" + (".." + b);
      FlatSplit(dir, ".." + b);
    }
    if b == "" {
      assert ".." + b == "..";
    } else {
      assert ".." + b == ".." + "/" + b[1..];
      FlatSplit("..", b[1..]);
    }
  }

  lemma {:induction false} FindsDotDot(s: string)
    requires !Flat(s)
    ensures HasSegment(s, "..")
    decreases |s|
  {
    if '/' !in s {
      assert s == "..";
      SegmentAt(s, "", "..", "");
    } else {
      var i := SlashAt(s);
      var x, rest := s[..i], s[i + 1..];
      assert '/' !in x && s == x + "/" + rest;
      FlatSplit(x, rest);
      hide SlashAt, HasSegment;
      if !Flat(x) {
        assert x == "..";
        SegmentAt(s, "", "..", "/" + rest);
      } else {
        FindsDotDot(rest);
        SegmentAfter(x, rest);
      }
    }
  }

  lemma SegmentAfter(x: string, rest: string)
    requires HasSegment(rest, "..")
    ensures HasSegment(x + "/" + rest, "..")
  {
    var a, b :| rest == a + ".." + b && OpensSegment(a) && ClosesSegment(b);
    assert x + "/" + rest == (x + "/" + a) + ".." + b;
    SegmentAt(x + "/" + rest, x + "/" + a, "..", b);
  }

  /** A missing port is the https default. */
  predicate SamePort(a: Option<int>, b: Option<int>) { a == b || (a.None? && b == Some(443)) || (a == Some(443) && b.None?) }

  predicate EndsInSlash(p: string) { p != "" && p[|p| - 1] == '/' }

  /** The path is `want` and more, beginning a new segment. */
  ghost predicate Continues(path: string, want: string) {
    exists rest :: path == want + rest && (EndsInSlash(want) || (rest != "" && rest[0] == '/'))
  }

  /** Whether a redirect without escapes is admitted, read off its parts: https, no userinfo, the same host
      and port, a path that continues the prefix at a segment boundary, no segment `..`. */
  lemma PlainAdmission(u: Utf8, got: Url, want: Url)
    requires '%' !in got.path
    ensures Admits(u, Some(got), Some(want)) <==>
              && got.scheme == "https" && got.username == "" && got.password == ""
              && got.hostname != "" && got.hostname == want.hostname && SamePort(got.port, want.port)
              && !HasSegment(got.path, "..")
              && Continues(got.path, want.path)
  {
    PlainLayers(u, got.path, 5);
    FlatMeansNoDotDot(got.path);
    AnchoredPrefix(got.path, want.path);
    hide Layers, Flat, HasSegment, Continues;
  }

  lemma AnchoredPrefix(path: string, want: string)
    ensures StartsWith(path, Anchored(want)) <==> Continues(path, want)
  {
    if StartsWith(path, Anchored(want)) {
      PrefixSplit(path, Anchored(want));
      assert path == want + path[|want|..];
    }
  }

  /** No redirect is admitted with a segment that comes to `..` within five layers of decoding. */
  lemma EncodedClimbRefused(u: Utf8, got: Url, want: Option<Url>, a: string, x: string, b: string, k: nat)
    requires got.path == a + x + b && OpensSegment(a) && ClosesSegment(b)
    requires k <= 5 && Layers(u, x, k) == ".."
    ensures !Admits(u, Some(got), want)
  {
    hide Flat, Layers;
    EncodedClimb(u, a, x, b, k);
    if Admits(u, Some(got), want) { FlatBelow(u, got.path, k, 5); }
  }

  lemma EncodedClimb(u: Utf8, a: string, x: string, b: string, k: nat)
    requires OpensSegment(a) && ClosesSegment(b) && Layers(u, x, k) == ".."
    ensures !Flat(Layers(u, a + x + b, k))
  {
    hide Layers, Flat, Segments;
    Basics();
    var tail := x + b;
    if b == "" {
      assert tail == x;
    } else {
      assert tail == x + "/" + b[1..];
      LayersSplit(u, x, b[1..], k);
      FlatSplit(Layers(u, x, k), Layers(u, b[1..], k));
    }
    assert !Flat(Layers(u, tail, k));
    if a == "" {
      assert a + x + b == tail;
    } else {
      var dir := a[..|a| - 1];
      assert a + x + b == dir + "/" + tail;
      LayersSplit(u, dir, tail, k);
      FlatSplit(Layers(u, dir, k), Layers(u, tail, k));
    }
  }

  const DOTS := [".", "%2e", "%2E"]

  /** None of the nine ways to spell `..` with encoded dots is let through. */
  lemma SpelledClimbRefused(u: Utf8, got: Url, want: Option<Url>, a: string, i: nat, j: nat, b: string)
    requires i < 3 && j < 3 && got.path == a + (DOTS[i] + DOTS[j]) + b && OpensSegment(a) && ClosesSegment(b)
    ensures !Admits(u, Some(got), want)
  {
    DotDecodes(u, i, DOTS[j]);
    DotDecodes(u, j, "");
    assert DOTS[j] + "" == DOTS[j];
    assert Layers(u, DOTS[i] + DOTS[j], 1) == Decode(u, Layers(u, DOTS[i] + DOTS[j], 0));
    hide DOTS, Decode;
    EncodedClimbRefused(u, got, want, a, DOTS[i] + DOTS[j], b, 1);
  }

  lemma DotDecodes(u: Utf8, i: nat, rest: string)
    requires i < 3
    ensures Decode(u, DOTS[i] + rest) == "." + Decode(u, rest)
  {
    if i == 0 {
      assert DOTS[0] == ".";
      DecodesNothingElse(u, "." + rest);
      assert ("." + rest)[1..] == rest;
    } else {
      var cases := [(false, i == 2)];
      assert cases[1..] == [] && [46][1..] == [];
      assert Encoded([46], cases) == DOTS[i];
      DecodesAscii(u, [46], cases, rest);
      assert Chars([46]) == ".";
    }
  }

  /** `..` under `n` layers of encoding. */
  function Veiled(n: nat): string
    ensures |Veiled(n)| >= 2
  {
    if n == 0 then ".." else if n == 1 then "%2e." else "%25" + Veiled(n - 1)[1..]
  }

  lemma {:induction false} PlainDecodes(u: Utf8, s: string)
    requires '%' !in s
    ensures Decode(u, s) == s
  {
    if s != [] { PlainDecodes(u, s[1..]); }
  }

  lemma {:induction false} VeiledShape(n: nat)
    requires n >= 1
    ensures Veiled(n)[0] == '%' && '%' !in Veiled(n)[1..] && '/' !in Veiled(n)
  {
    if n > 1 {
      VeiledShape(n - 1);
      assert Veiled(n)[1..] == "25" + Veiled(n - 1)[1..];
    }
  }

  lemma VeiledDecodes(u: Utf8, n: nat)
    requires n >= 1
    ensures Decode(u, Veiled(n)) == Veiled(n - 1)
  {
    var s := Veiled(n);
    if n == 1 {
      assert s[3..] == ".";
      PlainDecodes(u, ".");
    } else {
      VeiledShape(n - 1);
      assert s[3..] == Veiled(n - 1)[1..];
      PlainDecodes(u, s[3..]);
      assert Veiled(n - 1) == [Veiled(n - 1)[0]] + Veiled(n - 1)[1..];
    }
  }

  lemma {:induction false} VeiledLayers(u: Utf8, n: nat, k: nat)
    requires k <= n
    ensures Layers(u, Veiled(n), k) == Veiled(n - k)
  {
    if k > 0 {
      VeiledLayers(u, n, k - 1);
      VeiledDecodes(u, n - k + 1);
    }
  }

  lemma {:induction false} PlainLayers(u: Utf8, s: string, k: nat)
    requires '%' !in s
    ensures Layers(u, s, k) == s
  {
    if k > 0 {
      PlainLayers(u, s, k - 1);
      PlainDecodes(u, s);
    }
  }

  /** A segment that decodes to itself and is no dot segment. */
  predicate PlainSegment(x: string) { x != "" && x != "." && x != ".." && '/' !in x && '%' !in x }

  /** Five layers are the limit: a `..` under six layers is admitted, and leaves the prefix once a
      consumer decodes six times. */
  lemma SixthLayerEscapes(u: Utf8, want: Url, x: string)
    requires PlainSegment(x) && want.path == "/" + x + "/"
    requires want.hostname != "" && want.username == "" && want.password == "" && want.scheme == "https"
    ensures var got := want.(path := want.path + Veiled(6));
            && Admits(u, Some(got), Some(want))
            && !Below(u, got.path, Anchored(want.path), 6)
  {
    hide RemoveDots, Segments, Decode;
    var dir := "/" + x;
    var path := want.path + Veiled(6);
    assert path == dir + "/" + Veiled(6) && want.path == dir + "/" + "";
    assert StartsWith(path, want.path);
    VeiledPath(u, dir, 5);
    VeiledPath(u, dir, 6);
    PlainLayers(u, want.path, 6);
    FlatSplit(dir, Veiled(1));
    PlainFlat(x);
    Climb(x);
  }

  /** A path below `/x/` that climbs back by a `..` under six layers. */
  function Climbing(x: string, y: string): string { "/" + x + "/" + y + "/" + Veiled(6) }

  /** The converse fails: `y/..` with the `..` under six layers has a `..` once decoded, yet stays under the
      prefix at every depth, since it climbs no further than it went down. */
  lemma StaysThoughClimbing(u: Utf8, want: Url, x: string, y: string, k: nat)
    requires PlainSegment(x) && PlainSegment(y) && want.path == "/" + x + "/"
    requires want.hostname != "" && want.username == "" && want.password == "" && want.scheme == "https"
    ensures var got := want.(path := Climbing(x, y));
            && Admits(u, Some(got), Some(want))
            && !Flat(Layers(u, got.path, |got.path| + 1))
            && Below(u, got.path, Anchored(want.path), k)
  {
    hide RemoveDots, Layers, Flat, Admits, StartsWith, Climbing, PlainSegment;
    var path := Climbing(x, y);
    ClimbingAdmitted(u, want, x, y);
    if Flat(Layers(u, path, |path| + 1)) { FlatBelow(u, path, 6, |path| + 1); }
    if k <= 5 { RedirectContained(u, Some(want.(path := path)), Some(want), k); } else { ClimbingContained(u, x, y, k); }
  }

  lemma ClimbingContained(u: Utf8, x: string, y: string, k: nat)
    requires PlainSegment(x) && PlainSegment(y) && k >= 6
    ensures Below(u, Climbing(x, y), Anchored("/" + x + "/"), k)
  {
    hide RemoveDots, Layers;
    ClimbingDecoded(u, "/" + x + "/" + y, k);
    PlainLayers(u, "/" + x + "/", k);
    DownAndUp(x, y);
  }

  lemma ClimbingDecoded(u: Utf8, dir: string, k: nat)
    requires '%' !in dir && k >= 6
    ensures Layers(u, dir + "/" + Veiled(6), k) == dir + "/" + ".."
  {
    hide Decode, Layers;
    VeiledPath(u, dir, 6);
    assert '%' !in dir + "/" + "..";
    PlainDecodes(u, dir + "/" + "..");
    FixedFrom(u, dir + "/" + Veiled(6), 6, k);
  }

  lemma ClimbingAdmitted(u: Utf8, want: Url, x: string, y: string)
    requires PlainSegment(x) && PlainSegment(y) && want.path == "/" + x + "/"
    requires want.hostname != "" && want.username == "" && want.password == "" && want.scheme == "https"
    ensures !Flat(Layers(u, Climbing(x, y), 6))
    ensures |Climbing(x, y)| > 6
    ensures Admits(u, Some(want.(path := Climbing(x, y))), Some(want))
  {
    var dir := "/" + x + "/" + y;
    var path := dir + "/" + Veiled(6);
    hide RemoveDots, Segments, Decode, Layers, Flat;
    assert path == want.path + (y + "/" + Veiled(6));
    VeiledPath(u, dir, 5);
    VeiledPath(u, dir, 6);
    PlainFlat(x);
    PlainFlat(y);
    Basics();
    FlatSplit("/" + x, y);
    FlatSplit(dir, Veiled(1));
    FlatSplit(dir, "..");
  }

  lemma DownAndUp(x: string, y: string)
    requires PlainSegment(x) && PlainSegment(y)
    ensures RemoveDots("/" + x + "/" + y + "/" + "..", "") == RemoveDots("/" + x + "/", "") == "/" + x + "/"
  {
    hide RemoveDots, TrimLast;
    var a, t := "/" + x, "/" + y + "/" + "..";
    FirstMoves(x, y + "/" + "..");
    assert "/" + x + "/" + y + "/" + ".." == "/" + x + "/" + (y + "/" + "..") && "/" + (y + "/" + "..") == t;
    SecondMoves(a, y);
    UpOne(a + "/" + y);
    TrimAfter(a, y);
    SlashAlone(a);
    Climb(x);
    assert "/" + x + "/" + "" == "/" + x + "/";
  }

  lemma SecondMoves(a: string, y: string)
    requires PlainSegment(y)
    ensures RemoveDots("/" + y + "/" + "..", a) == RemoveDots("/..", a + "/" + y)
  {
    hide RemoveDots;
    var t := "/" + y + "/" + "..";
    OpensOrdinary(y, "..");
    MoveSegment(t, a);
    assert t[..1 + |y|] == "/" + y && t[1 + |y|..] == "/..";
    assert a + ("/" + y) == a + "/" + y;
  }

  lemma {:induction false} TrimAfter(a: string, y: string)
    requires '/' !in y
    ensures TrimLast(a + "/" + y) == a
  {
    var s := a + "/" + y;
    if y == [] {
      assert s[|s| - 1] == '/' && s[..|s| - 1] == a;
    } else {
      assert s[|s| - 1] == y[|y| - 1];
      assert s[..|s| - 1] == a + "/" + y[..|y| - 1];
      TrimAfter(a, y[..|y| - 1]);
    }
  }

  lemma VeiledPath(u: Utf8, dir: string, k: nat)
    requires '%' !in dir && k <= 6
    ensures Layers(u, dir + "/" + Veiled(6), k) == dir + "/" + Veiled(6 - k)
  {
    LayersSplit(u, dir, Veiled(6), k);
    PlainLayers(u, dir, k);
    VeiledLayers(u, 6, k);
  }

  lemma PlainFlat(x: string)
    requires PlainSegment(x)
    ensures Flat(x) && Flat("/" + x) && Flat(Veiled(1))
  {
    Basics();
    FlatSplit("", x);
    assert "/" + x == "" + "/" + x;
    VeiledShape(1);
    assert Segments(x) == [x] && Segments(Veiled(1)) == [Veiled(1)];
    assert Veiled(1)[0] != '.';
  }

  lemma OpensOrdinary(x: string, b: string)
    requires PlainSegment(x)
    ensures Ordinary("/" + x + "/" + b) && FirstLen("/" + x + "/" + b) == 1 + |x|
  {
    var s := "/" + x + "/" + b;
    assert s[0] == '/' && s[1..] == x + "/" + b;
    SlashAtSplit(x, b);
    assert s[1 + |x|] == '/' && forall i | 0 <= i < |x| :: s[1 + i] == x[i];
    Opening(s);
    assert x == "." <==> |x| == 1 && x[0] == '.' by { Opening(x); }
    assert x == ".." <==> |x| == 2 && x[0] == '.' && x[1] == '.';
    assert x[0] == s[1] && (|x| > 1 ==> x[1] == s[2]) && (|x| > 2 ==> x[2] == s[3]);
    hide StartsWith, Segments;
    assert s != "/.." && s != "..";
  }

  lemma Climb(x: string)
    requires PlainSegment(x)
    ensures RemoveDots("/" + x + "/" + "..", "") == "/" && RemoveDots("/" + x + "/" + "", "") == "/" + x + "/"
    ensures !StartsWith("/", "/" + x + "/")
  {
    hide RemoveDots, TrimLast;
    FirstMoves(x, "..");
    FirstMoves(x, "");
    UpOne("/" + x);
    TrimAfter("", x);
    assert "/" + x == "" + "/" + x && "/" + ".." == "/.." && "/" + "" == "/";
    SlashAlone("");
    SlashAlone("/" + x);
    assert "" + "/" == "/";
  }

  /** The first segment of a path moves to the empty output. */
  lemma FirstMoves(x: string, b: string)
    requires PlainSegment(x)
    ensures RemoveDots("/" + x + "/" + b, "") == RemoveDots("/" + b, "/" + x)
  {
    hide RemoveDots;
    var s := "/" + x + "/" + b;
    OpensOrdinary(x, b);
    MoveSegment(s, "");
    assert s[..1 + |x|] == "/" + x && s[1 + |x|..] == "/" + b;
    assert "" + ("/" + x) == "/" + x;
  }

  lemma UpOne(out: string)
    ensures RemoveDots("/..", out) == RemoveDots("/", TrimLast(out))
  {
    UpRule("/..", out);
  }

  lemma UpRule(s: string, out: string)
    requires |s| == 3 && s[0] == '/' && s[1] == '.' && s[2] == '.'
    ensures RemoveDots(s, out) == RemoveDots("/", TrimLast(out))
  {
    assert s == "/..";
  }
}
