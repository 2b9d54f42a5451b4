/** The two payload caps: characters in a string cell, bytes in the whole result. */
module Capping {
  import opened Prelude
  import opened SqlTree

  type Cells = seq<Value>

  /** How a composite value prints, and how many bytes a capped row takes when serialized. */
  datatype Format = Format(repr: Value -> string, size: Cells -> nat)

  const CELL_CAP: nat := 4096

  const MARK: string := "\U{2026}[truncated]"

  /** Bytes of a character in UTF-8. */
  function CharBytes(c: char): (n: nat)
    ensures 1 <= n <= 4
  {
    var k := c as int;
    if k < 0x80 then 1 else if k < 0x800 then 2 else if k < 0x1_0000 then 3 else 4
  }

  function ByteLen(s: string): nat { if s == [] then 0 else CharBytes(s[0]) + ByteLen(s[1..]) }

  /** The test is on bytes, the cut on characters. */
  function CapText(s: string): string { if ByteLen(s) > CELL_CAP then Take(s, CELL_CAP) + MARK else s }

  function CapCell(f: Format, v: Value): Value {
    match v
    case Null => v
    case NullRow(_) => Null
    case Bool(_) => v
    case Int(_) => v
    case Str(s) => Str(CapText(s))
    case _ => Str(CapText(f.repr(v)))
  }

  function CapRow(f: Format, row: Cells): Cells { seq(|row|, i requires 0 <= i < |row| => CapCell(f, row[i])) }

  function CapAll(f: Format, rows: seq<Cells>): seq<Cells> { seq(|rows|, i requires 0 <= i < |rows| => CapRow(f, rows[i])) }

  function SizeSum(f: Format, rows: seq<Cells>): nat {
    if rows == [] then 0 else SizeSum(f, rows[..|rows| - 1]) + f.size(rows[|rows| - 1])
  }

  // ----- bytes of a character -----

  /** A well-formed UTF-8 sequence, by the grammar of section 4 of RFC 3629. */
  predicate WellFormed(bs: seq<nat>) {
    && (forall i | 1 <= i < |bs| :: 0x80 <= bs[i] <= 0xBF)
    && (|bs| == 1 ==> bs[0] <= 0x7F)
    && (|bs| == 2 ==> 0xC2 <= bs[0] <= 0xDF)
    && (|bs| == 3 ==> 0xE0 <= bs[0] <= 0xEF && (bs[0] == 0xE0 ==> bs[1] >= 0xA0) && (bs[0] == 0xED ==> bs[1] <= 0x9F))
    && (|bs| == 4 ==> 0xF0 <= bs[0] <= 0xF4 && (bs[0] == 0xF0 ==> bs[1] >= 0x90) && (bs[0] == 0xF4 ==> bs[1] <= 0x8F))
    && 1 <= |bs| <= 4
  }

  /** The code point it stands for. */
  function CodePoint(bs: seq<nat>): nat
    requires WellFormed(bs)
  {
    if |bs| == 1 then bs[0]
    else if |bs| == 2 then (bs[0] - 0xC0) * 0x40 + (bs[1] - 0x80)
    else if |bs| == 3 then (bs[0] - 0xE0) * 0x1000 + (bs[1] - 0x80) * 0x40 + (bs[2] - 0x80)
    else (bs[0] - 0xF0) * 0x4_0000 + (bs[1] - 0x80) * 0x1000 + (bs[2] - 0x80) * 0x40 + (bs[3] - 0x80)
  }

  lemma SpellingLength(bs: seq<nat>)
    requires WellFormed(bs)
    ensures |bs| == 1 <==> CodePoint(bs) < 0x80
    ensures |bs| <= 2 <==> CodePoint(bs) < 0x800
    ensures |bs| <= 3 <==> CodePoint(bs) < 0x1_0000
  {
  }

  lemma {:induction false} Spelled(k: nat) returns (bs: seq<nat>)
    requires k < 0xD800 || 0xE000 <= k < 0x11_0000
    ensures WellFormed(bs) && CodePoint(bs) == k
  {
    var a, x := k / 0x40, k % 0x40;
    var b, y := a / 0x40, a % 0x40;
    var c, z := b / 0x40, b % 0x40;
    if k < 0x80 {
      bs := [k];
    } else if k < 0x800 {
      bs := [0xC0 + a, 0x80 + x];
    } else if k < 0x1_0000 {
      bs := [0xE0 + b, 0x80 + y, 0x80 + x];
    } else {
      bs := [0xF0 + c, 0x80 + z, 0x80 + y, 0x80 + x];
    }
  }

  /** Every UTF-8 spelling of a character has the length the cap counts, and there is one. */
  lemma CharBytesExactly(c: char)
    ensures forall bs | WellFormed(bs) && CodePoint(bs) == c as int :: |bs| == CharBytes(c)
    ensures exists bs :: WellFormed(bs) && CodePoint(bs) == c as int
  {
    forall bs | WellFormed(bs) && CodePoint(bs) == c as int ensures |bs| == CharBytes(c) { SpellingLength(bs); }
    var bs := Spelled(c as nat);
  }

  // ----- cells -----

  lemma {:induction false} ByteLenAppend(s: string, t: string)
    ensures ByteLen(s + t) == ByteLen(s) + ByteLen(t)
  {
    if s == [] {
      assert s + t == t;
    } else {
      ByteLenAppend(s[1..], t);
      assert (s + t)[1..] == s[1..] + t;
    }
  }

  lemma ByteLenBounds(s: string)
    ensures |s| <= ByteLen(s) <= 4 * |s|
  {
  }

  lemma MarkBytes()
    ensures ByteLen(MARK) == 14 && |MARK| == 12
  {
    var tail := MARK[1..];
    assert MARK == [MARK[0]] + tail && tail == "[truncated]";
    assert CharBytes(MARK[0]) == 3;
    AsciiBytes(tail);
  }

  lemma AsciiBytes(s: string)
    requires forall i | 0 <= i < |s| :: (s[i] as int) < 0x80
    ensures ByteLen(s) == |s|
  {
  }

  /** Cutting at the first `cap` characters, and marking, a text of more than `cap` bytes. */
  lemma CutBytes(s: string, cap: nat)
    requires ByteLen(s) > cap
    ensures cap < ByteLen(Take(s, cap) + MARK) <= 4 * cap + 14
    ensures |s| <= cap ==> Take(s, cap) == s
  {
    var cut := Take(s, cap);
    ByteLenAppend(cut, MARK);
    MarkBytes();
    ByteLenBounds(cut);
    hide ByteLen;
    assert |s| <= cap ==> cut == s;
  }

  /** A text cell stays within 4096 bytes exactly when it already was; otherwise it loses its characters
      past the 4096th, gains the mark, and stays within four bytes a character plus the mark. */
  lemma CapTextExact(s: string)
    ensures ByteLen(CapText(s)) <= 4 * CELL_CAP + 14
    ensures ByteLen(CapText(s)) <= CELL_CAP <==> ByteLen(s) <= CELL_CAP
    ensures ByteLen(s) <= CELL_CAP ==> CapText(s) == s
    ensures ByteLen(s) > CELL_CAP ==> CapText(s) == s[..Min(CELL_CAP, |s|)] + MARK
  {
    hide ByteLen;
    if ByteLen(s) > CELL_CAP { CutBytes(s, CELL_CAP); }
  }

  /** The byte test does not protect: some over-long cells are not shortened at all, only marked. */
  lemma CapTextMayGrow(s: string)
    requires |s| <= CELL_CAP < ByteLen(s)
    ensures CapText(s) == s + MARK
  {
    hide ByteLen;
    CutBytes(s, CELL_CAP);
  }

  /** What a capped cell may be, and what it keeps: no composite is left, a text is within 4096 bytes or
      ends in the mark after at most 4096 characters, and a short text and every scalar come through. */
  lemma CellExactly(f: Format, v: Value)
    ensures var c := CapCell(f, v);
            && (c.Null? || c.Bool? || c.Int? || c.Str?)
            && (c.Str? ==> ByteLen(c.s) <= 4096
                           || (exists kept :: c.s == kept + "\U{2026}[truncated]" && |kept| <= 4096 && ByteLen(kept) <= 16384))
            && (v.Null? || v.Bool? || v.Int? ==> c == v)
            && (v.NullRow? ==> c == Null)
            && (v.Str? && ByteLen(v.s) <= 4096 ==> c == v)
            && (v.Str? && ByteLen(v.s) > 4096 ==> c == Str(v.s[..Min(4096, |v.s|)] + "\U{2026}[truncated]"))
            && (v.Row? || v.Fault? ==> c == CapCell(f, Str(f.repr(v))))
  {
    if v.Str? { CappedText(v.s); }
    if v.Row? || v.Fault? { CappedText(f.repr(v)); }
    hide ByteLen;
  }

  lemma CappedText(s: string)
    ensures ByteLen(s) <= 4096 ==> CapText(s) == s
    ensures ByteLen(s) > 4096 ==>
              var kept := s[..Min(4096, |s|)];
              CapText(s) == kept + "\U{2026}[truncated]" && |kept| <= 4096 && ByteLen(kept) <= 16384
  {
    ByteLenBounds(s[..Min(4096, |s|)]);
    hide ByteLen;
  }

  // ----- rows -----

  lemma SizeSumSnoc(f: Format, rows: seq<Cells>, r: Cells)
    ensures SizeSum(f, rows + [r]) == SizeSum(f, rows) + f.size(r)
  {
    assert (rows + [r])[..|rows|] == rows;
  }

  lemma {:induction false} SizeSumMono(f: Format, rows: seq<Cells>, i: nat, j: nat)
    requires i <= j <= |rows|
    ensures SizeSum(f, CapAll(f, rows[..i])) <= SizeSum(f, CapAll(f, rows[..j]))
  {
    if i < j {
      SizeSumMono(f, rows, i, j - 1);
      assert CapAll(f, rows[..j]) == CapAll(f, rows[..j - 1]) + [CapRow(f, rows[j - 1])];
      SizeSumSnoc(f, CapAll(f, rows[..j - 1]), CapRow(f, rows[j - 1]));
    }
  }

  /** `k` rows fit under the byte cap, counting a lone row as fitting whatever its size. */
  ghost predicate Fits(f: Format, rows: seq<Cells>, cap: int, k: nat)
    requires k <= |rows|
  {
    k <= 1 || SizeSum(f, CapAll(f, rows[..k])) <= cap
  }

  /** Keep capped rows while they fit: the result is the longest prefix that fits. */
  method CapRows(f: Format, rows: seq<Cells>, cap: int) returns (out: seq<Cells>, total: nat, truncated: bool)
    ensures |out| <= |rows| && out == CapAll(f, rows[..|out|])
    ensures total == SizeSum(f, out)
    ensures truncated <==> |out| < |rows|
    ensures Fits(f, rows, cap, |out|)
    ensures forall k | |out| < k <= |rows| :: !Fits(f, rows, cap, k)
    ensures rows != [] ==> out != []
  {
    out, total, truncated := [], 0, false;
    for i := 0 to |rows|
      invariant !truncated && |out| == i && out == CapAll(f, rows[..i])
      invariant total == SizeSum(f, out)
      invariant i > 1 ==> total <= cap
    {
      var capped := CapRow(f, rows[i]);
      var bytes := f.size(capped);
      assert CapAll(f, rows[..i + 1]) == CapAll(f, rows[..i]) + [capped];
      SizeSumSnoc(f, out, capped);
      if out != [] && total + bytes > cap {
        truncated := true;
        forall k | i < k <= |rows| ensures !Fits(f, rows, cap, k) {
          SizeSumMono(f, rows, i + 1, k);
        }
        break;
      }
      out := out + [capped];
      total := total + bytes;
    }
    if !truncated { assert rows[..|rows|] == rows; }
  }

  /** The contract of `CapRows` leaves one answer: it determines how many rows are kept. */
  lemma LongestPrefixUnique(f: Format, rows: seq<Cells>, cap: int, a: nat, b: nat)
    requires a <= |rows| && b <= |rows|
    requires Fits(f, rows, cap, a) && forall k | a < k <= |rows| :: !Fits(f, rows, cap, k)
    requires Fits(f, rows, cap, b) && forall k | b < k <= |rows| :: !Fits(f, rows, cap, k)
    ensures a == b
  {
  }
}
