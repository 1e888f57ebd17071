/** The identifier generator of the utilities: a table of the 256
    two-digit lower-case hexadecimal texts of a byte, and a random (version
    4) UUID in the layout of section 4.4 of RFC 4122, made from four random
    32-bit words. */
module Uuid {
  import opened Text

  /** A 32-bit word, as `Math.random() * 0xffffffff | 0` gives, read
      without sign: the bits the masks below look at are the same. */
  newtype Word = x: int | 0 <= x < 0x1_0000_0000

  /** The value of a lower-case hexadecimal digit. */
  function HexValue(c: char): nat {
    if '0' <= c <= '9' then c as int - '0' as int
    else if 'a' <= c <= 'f' then c as int - 'a' as int + 10
    else 0
  }

  lemma HexDigitValue(d: nat)
    requires d < 16
    ensures IsLowerHex(HexDigit(d)) && HexValue(HexDigit(d)) == d
  {
  }

  // ---------------------------------------------------------------------
  // The table

  /** `lut[i]`: `i` in hexadecimal, a `0` put in front below 16. */
  function LutEntry(i: nat): string
    requires i < 256
  {
    (if i < 16 then "0" else "") + ToHex(i)
  }

  /** Every entry is two lower-case hexadecimal digits that read back as
      its index, high digit first. */
  lemma LutEntryDigits(i: nat)
    requires i < 256
    ensures var s := LutEntry(i);
            && |s| == 2 && IsLowerHex(s[0]) && IsLowerHex(s[1])
            && s[0] == HexDigit(i / 16) && s[1] == HexDigit(i % 16)
            && 16 * HexValue(s[0]) + HexValue(s[1]) == i
  {
    HexDigitValue(i / 16);
    HexDigitValue(i % 16);
    if i < 16 {
      assert LutEntry(i) == "0" + [HexDigit(i)];
      assert HexDigit(0) == '0';
    } else {
      assert ToHex(i) == ToHex(i / 16) + [HexDigit(i % 16)];
      assert LutEntry(i) == [HexDigit(i / 16)] + [HexDigit(i % 16)];
    }
  }

  /** Different bytes have different entries. */
  lemma LutEntryInjective(i: nat, j: nat)
    requires i < 256 && j < 256 && LutEntry(i) == LutEntry(j)
    ensures i == j
  {
    LutEntryDigits(i);
    LutEntryDigits(j);
  }

  /** The loop filling the table. */
  method BuildLut() returns (lut: seq<string>)
    ensures |lut| == 256
    ensures forall i :: 0 <= i < 256 ==> lut[i] == LutEntry(i)
  {
    lut := [];
    var i := 0;
    while i < 256
      invariant 0 <= i <= 256 && |lut| == i
      invariant forall k :: 0 <= k < i ==> lut[k] == LutEntry(k)
    {
      lut := lut + [(if i < 16 then "0" else "") + ToHex(i)];
      i := i + 1;
    }
  }

  // ---------------------------------------------------------------------
  // The identifier

  /** `d >> 8 * k & 0xff`: byte `k` of the word, the lowest first. */
  function Byte(d: Word, k: nat): (b: nat)
    requires k < 4
    ensures b < 256
  {
    var shift := if k == 0 then 1 else if k == 1 then 0x100 else if k == 2 then 0x1_0000 else 0x100_0000;
    (d as int / shift) % 256
  }

  /** The sixteen bytes written, in the order they are written: the low
      nibble of byte 2 of `d1` under the version `4` (`& 0x0f | 0x40`), and
      the low six bits of byte 0 of `d2` under the variant bits `10`
      (`& 0x3f | 0x80`). */
  function UuidBytes(d0: Word, d1: Word, d2: Word, d3: Word): (bs: seq<nat>)
    ensures |bs| == 16 && forall j :: 0 <= j < 16 ==> bs[j] < 256
  {
    [Byte(d0, 0), Byte(d0, 1), Byte(d0, 2), Byte(d0, 3),
     Byte(d1, 0), Byte(d1, 1),
     Byte(d1, 2) % 16 + 0x40, Byte(d1, 3),
     Byte(d2, 0) % 64 + 0x80, Byte(d2, 1),
     Byte(d2, 2), Byte(d2, 3), Byte(d3, 0), Byte(d3, 1), Byte(d3, 2), Byte(d3, 3)]
  }

  predicate Bytes(bs: seq<nat>) {
    forall j :: 0 <= j < |bs| ==> bs[j] < 256
  }

  /** The table entries of some bytes, one after the other. */
  function HexPairs(bs: seq<nat>): (s: string)
    requires Bytes(bs)
    ensures |s| == 2 * |bs|
  {
    if bs == [] then "" else LutEntryDigits(bs[0]); LutEntry(bs[0]) + HexPairs(bs[1..])
  }

  predicate AllLowerHex(s: string) {
    forall i :: 0 <= i < |s| ==> IsLowerHex(s[i])
  }

  /** The entries of `n` bytes are `2 * n` lower-case hexadecimal digits,
      byte `j` at `2 * j`. */
  lemma {:induction false} HexPairsAt(bs: seq<nat>)
    requires Bytes(bs)
    ensures AllLowerHex(HexPairs(bs))
    ensures forall j :: 0 <= j < |bs| ==> HexPairs(bs)[2 * j..2 * j + 2] == LutEntry(bs[j])
  {
    if bs != [] {
      var rest := bs[1..];
      HexPairsAt(rest);
      LutEntryDigits(bs[0]);
      var s := LutEntry(bs[0]) + HexPairs(rest);
      forall j | 0 <= j < |bs|
        ensures s[2 * j..2 * j + 2] == LutEntry(bs[j])
      {
        if j > 0 {
          assert s[2 * j..2 * j + 2] == HexPairs(rest)[2 * (j - 1)..2 * (j - 1) + 2];
        }
      }
    }
  }

  /** Sixteen bytes in groups of 4, 2, 2, 2 and 6, joined by `-`. */
  function Layout(bs: seq<nat>): (u: string)
    requires |bs| == 16 && Bytes(bs)
    ensures |u| == 36
  {
    HexPairs(bs[..4]) + "-" + HexPairs(bs[4..6]) + "-" + HexPairs(bs[6..8]) + "-" + HexPairs(bs[8..10]) + "-" + HexPairs(bs[10..])
  }

  /** `UUID()` with the four random words given. */
  function Uuid(d0: Word, d1: Word, d2: Word, d3: Word): (u: string)
    ensures |u| == 36
  {
    Layout(UuidBytes(d0, d1, d2, d3))
  }

  /** Where the entry of byte `j` starts: after its group's dashes. */
  function Slot(j: nat): nat {
    2 * j + (if j < 4 then 0 else if j < 6 then 1 else if j < 8 then 2 else if j < 10 then 3 else 4)
  }

  predicate IsDashPosition(i: int) {
    i == 8 || i == 13 || i == 18 || i == 23
  }

  /** The text of the five groups. */
  lemma LayoutGroups(bs: seq<nat>)
    requires |bs| == 16 && Bytes(bs)
    ensures var u := Layout(bs);
            && u[..8] == HexPairs(bs[..4]) && u[9..13] == HexPairs(bs[4..6]) && u[14..18] == HexPairs(bs[6..8])
            && u[19..23] == HexPairs(bs[8..10]) && u[24..] == HexPairs(bs[10..])
            && u[8] == '-' && u[13] == '-' && u[18] == '-' && u[23] == '-'
  {
    var a, b, c, d, e := HexPairs(bs[..4]), HexPairs(bs[4..6]), HexPairs(bs[6..8]), HexPairs(bs[8..10]), HexPairs(bs[10..]);
    var tail := d + "-" + e;
    assert Layout(bs) == a + "-" + b + "-" + c + "-" + tail;
    DashPieces(a + "-" + b, c, tail);
    DashPieces(a, b, c);
  }

  /** Where the pieces of `x-y-z` sit. */
  lemma DashPieces(x: string, y: string, z: string)
    ensures var s := x + "-" + y + "-" + z;
            && s[..|x|] == x && s[|x|] == '-' && s[|x| + 1..|x| + 1 + |y|] == y
            && s[|x| + 1 + |y|] == '-' && s[|x| + 2 + |y|..] == z
  {
    var s := x + "-" + y + "-" + z;
    assert s == x + ("-" + (y + ("-" + z)));
  }

  /** Every position other than a dash holds a digit of some group. */
  lemma LayoutDigit(bs: seq<nat>, i: nat)
    requires |bs| == 16 && Bytes(bs)
    requires i < 36 && !IsDashPosition(i)
    ensures IsLowerHex(Layout(bs)[i])
  {
    var u := Layout(bs);
    LayoutGroups(bs);
    if i < 8 {
      HexPairsAt(bs[..4]);
      assert u[i] == u[..8][i];
    } else if i < 13 {
      HexPairsAt(bs[4..6]);
      assert u[i] == u[9..13][i - 9];
    } else if i < 18 {
      HexPairsAt(bs[6..8]);
      assert u[i] == u[14..18][i - 14];
    } else if i < 23 {
      HexPairsAt(bs[8..10]);
      assert u[i] == u[19..23][i - 19];
    } else {
      HexPairsAt(bs[10..]);
      assert u[i] == u[24..][i - 24];
    }
  }

  /** A two-character slice of a piece found at `off` in `u`. */
  lemma SliceWithin(u: string, off: nat, w: string, k: nat)
    requires off + |w| <= |u| && u[off..off + |w|] == w && k + 2 <= |w|
    ensures u[off + k..off + k + 2] == w[k..k + 2]
  {
    assert u[off..off + |w|][k] == u[off + k] && u[off..off + |w|][k + 1] == u[off + k + 1];
  }

  /** The entry of byte `j` inside the group of bytes `lo..hi` found at `off`. */
  lemma PieceSlot(u: string, off: nat, bs: seq<nat>, lo: nat, hi: nat, j: nat)
    requires Bytes(bs) && lo <= j < hi <= |bs|
    requires off + 2 * (hi - lo) <= |u| && u[off..off + 2 * (hi - lo)] == HexPairs(bs[lo..hi])
    ensures u[off + 2 * (j - lo)..off + 2 * (j - lo) + 2] == LutEntry(bs[j])
  {
    var piece := bs[lo..hi];
    HexPairsAt(piece);
    SliceWithin(u, off, HexPairs(piece), 2 * (j - lo));
    assert piece[j - lo] == bs[j];
  }

  /** The entry of byte `j` sits at `Slot(j)`. */
  lemma LayoutSlot(bs: seq<nat>, j: nat)
    requires |bs| == 16 && Bytes(bs) && j < 16
    ensures Layout(bs)[Slot(j)..Slot(j) + 2] == LutEntry(bs[j])
  {
    var u := Layout(bs);
    LayoutGroups(bs);
    if j < 4 {
      assert u[0..8] == u[..8];
      PieceSlot(u, 0, bs, 0, 4, j);
    } else if j < 6 {
      PieceSlot(u, 9, bs, 4, 6, j);
    } else if j < 8 {
      PieceSlot(u, 14, bs, 6, 8, j);
    } else if j < 10 {
      PieceSlot(u, 19, bs, 8, 10, j);
    } else {
      assert u[24..36] == u[24..] && bs[10..16] == bs[10..];
      PieceSlot(u, 24, bs, 10, 16, j);
    }
  }

  /** The layout of section 4.4 of RFC 4122: 36 characters, dashes at 8, 13,
      18 and 23 and lower-case hexadecimal digits everywhere else; the
      version digit (14) is `4` and the variant digit (19) one of `8`, `9`,
      `a`, `b`. */
  lemma UuidLayout(d0: Word, d1: Word, d2: Word, d3: Word)
    ensures var u := Uuid(d0, d1, d2, d3);
            && (forall i :: 0 <= i < 36 ==> (IsDashPosition(i) <==> u[i] == '-'))
            && (forall i :: 0 <= i < 36 && !IsDashPosition(i) ==> IsLowerHex(u[i]))
            && u[14] == '4'
            && u[19] in "89ab"
  {
    var bs := UuidBytes(d0, d1, d2, d3);
    LayoutGroups(bs);
    forall i | 0 <= i < 36 && !IsDashPosition(i)
      ensures IsLowerHex(Layout(bs)[i])
    {
      LayoutDigit(bs, i);
    }
    UuidVersion(d0, d1, d2, d3);
  }

  /** The version and variant digits. */
  lemma UuidVersion(d0: Word, d1: Word, d2: Word, d3: Word)
    ensures Uuid(d0, d1, d2, d3)[14] == '4'
    ensures Uuid(d0, d1, d2, d3)[19] in "89ab"
  {
    var bs := UuidBytes(d0, d1, d2, d3);
    var u := Layout(bs);
    LayoutSlot(bs, 6);
    LayoutSlot(bs, 8);
    LutEntryDigits(bs[6]);
    LutEntryDigits(bs[8]);
    assert u[14] == u[Slot(6)..Slot(6) + 2][0];
    assert u[19] == u[Slot(8)..Slot(8) + 2][0];
    assert bs[6] / 16 == 4;
    assert 8 <= bs[8] / 16 < 12;
  }

  /** The digits read back as the bytes: the identifier carries every
      random bit except the six the version and variant overwrite. */
  lemma UuidBytesAt(d0: Word, d1: Word, d2: Word, d3: Word, j: nat)
    requires j < 16
    ensures var u := Uuid(d0, d1, d2, d3);
            var bs := UuidBytes(d0, d1, d2, d3);
            Slot(j) + 1 < |u| && 16 * HexValue(u[Slot(j)]) + HexValue(u[Slot(j) + 1]) == bs[j]
  {
    var bs := UuidBytes(d0, d1, d2, d3);
    var u := Layout(bs);
    LayoutSlot(bs, j);
    LutEntryDigits(bs[j]);
    var s := Slot(j);
    assert u[s] == u[s..s + 2][0] && u[s + 1] == u[s..s + 2][1];
  }
}
