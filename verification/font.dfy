/**
 * The built-in hexadecimal font: sixteen 4x5 glyphs for the digits 0-F, one
 * byte per row with the pixels in the high nibble, as laid out in section 2.4
 * (Display) of Cowgod's Chip-8 Technical Reference.
 */
module Font {
  import opened Python

  /** The font table one glyph per row, as the interpreter's source lays it out. */
  const Rows: seq<seq<byte>> := [
    [0xF0, 0x90, 0x90, 0x90, 0xF0], // 0
    [0x20, 0x60, 0x20, 0x20, 0x70], // 1
    [0xF0, 0x10, 0xF0, 0x80, 0xF0], // 2
    [0xF0, 0x10, 0xF0, 0x10, 0xF0], // 3
    [0x90, 0x90, 0xF0, 0x10, 0x10], // 4
    [0xF0, 0x80, 0xF0, 0x10, 0xF0], // 5
    [0xF0, 0x80, 0xF0, 0x90, 0xF0], // 6
    [0xF0, 0x10, 0x20, 0x40, 0x40], // 7
    [0xF0, 0x90, 0xF0, 0x90, 0xF0], // 8
    [0xF0, 0x90, 0xF0, 0x10, 0xF0], // 9
    [0xF0, 0x90, 0xF0, 0x90, 0x90], // A
    [0xE0, 0x90, 0xE0, 0x90, 0xE0], // B
    [0xF0, 0x80, 0x80, 0x80, 0xF0], // C
    [0xE0, 0x90, 0x90, 0x90, 0xE0], // D
    [0xF0, 0x80, 0xF0, 0x80, 0xF0], // E
    [0xF0, 0x80, 0xF0, 0x80, 0x80]  // F
  ]

  /** The bytes the interpreter loads at address 0: the rows one after another. */
  const Bytes: seq<byte> :=
    Rows[0] + Rows[1] + Rows[2] + Rows[3] + Rows[4] + Rows[5] + Rows[6] + Rows[7]
    + Rows[8] + Rows[9] + Rows[10] + Rows[11] + Rows[12] + Rows[13] + Rows[14] + Rows[15]

  const GlyphCount := 16
  const GlyphHeight := 5
  const GlyphWidth := 4

  /** The glyphs as pictures, '#' for a lit pixel: the reference the byte
      table is checked against. */
  const Pictures: seq<seq<string>> := [
    ["####", "#..#", "#..#", "#..#", "####"], // 0
    ["..#.", ".##.", "..#.", "..#.", ".###"], // 1
    ["####", "...#", "####", "#...", "####"], // 2
    ["####", "...#", "####", "...#", "####"], // 3
    ["#..#", "#..#", "####", "...#", "...#"], // 4
    ["####", "#...", "####", "...#", "####"], // 5
    ["####", "#...", "####", "#..#", "####"], // 6
    ["####", "...#", "..#.", ".#..", ".#.."], // 7
    ["####", "#..#", "####", "#..#", "####"], // 8
    ["####", "#..#", "####", "...#", "####"], // 9
    ["####", "#..#", "####", "#..#", "#..#"], // A
    ["###.", "#..#", "###.", "#..#", "###."], // B
    ["####", "#...", "#...", "#...", "####"], // C
    ["###.", "#..#", "#..#", "#..#", "###."], // D
    ["####", "#...", "####", "#...", "####"], // E
    ["####", "#...", "####", "#...", "#..."]  // F
  ]

  /** The byte a picture row stands for: its pixels in the high nibble, most
      significant bit leftmost, the low nibble clear. */
  function RowByte(picture: string): byte
    requires |picture| == GlyphWidth
  {
    (if picture[0] == '#' then 0x80 else 0)
    + (if picture[1] == '#' then 0x40 else 0)
    + (if picture[2] == '#' then 0x20 else 0)
    + (if picture[3] == '#' then 0x10 else 0)
  }

  /** Whether a picture has the glyph shape: five rows of four pixels. */
  predicate WellShaped(picture: seq<string>)
  {
    |picture| == GlyphHeight && forall r :: 0 <= r < GlyphHeight ==> |picture[r]| == GlyphWidth
  }

  /** The five row bytes a glyph picture stands for. */
  function Encode(picture: seq<string>): (g: seq<byte>)
    requires WellShaped(picture)
    ensures |g| == GlyphHeight
    ensures forall r :: 0 <= r < GlyphHeight ==> g[r] == RowByte(picture[r])
  {
    [RowByte(picture[0]), RowByte(picture[1]), RowByte(picture[2]), RowByte(picture[3]), RowByte(picture[4])]
  }

  /** Glyph `d` of the table is the encoding of its picture. */
  predicate MatchesPicture(d: nat)
    requires d < GlyphCount
  {
    WellShaped(Pictures[d]) && Rows[d] == Encode(Pictures[d])
  }

  /** Glyph `d` of the table is the picture of digit `d`. */
  lemma {:induction false} RowMatchesPicture(d: nat)
    requires d < GlyphCount
    ensures MatchesPicture(d)
  {
    if d < 8 { LowGlyphMatches(d); } else { HighGlyphMatches(d); }
  }

  /** The digits 0-7. */
  lemma {:induction false} LowGlyphMatches(d: nat)
    requires d < 8
    ensures MatchesPicture(d)
  {
    if d == 0 { assert MatchesPicture(0); }
    else if d == 1 { assert MatchesPicture(1); }
    else if d == 2 { assert MatchesPicture(2); }
    else if d == 3 { assert MatchesPicture(3); }
    else if d == 4 { assert MatchesPicture(4); }
    else if d == 5 { assert MatchesPicture(5); }
    else if d == 6 { assert MatchesPicture(6); }
    else { assert MatchesPicture(7); }
  }

  /** The digits 8-F. */
  lemma {:induction false} HighGlyphMatches(d: nat)
    requires 8 <= d < GlyphCount
    ensures MatchesPicture(d)
  {
    if d == 8 { assert MatchesPicture(8); }
    else if d == 9 { assert MatchesPicture(9); }
    else if d == 10 { assert MatchesPicture(10); }
    else if d == 11 { assert MatchesPicture(11); }
    else if d == 12 { assert MatchesPicture(12); }
    else if d == 13 { assert MatchesPicture(13); }
    else if d == 14 { assert MatchesPicture(14); }
    else { assert MatchesPicture(15); }
  }

  /** Every glyph of the table is the picture of its digit. */
  lemma RowsMatchPictures()
    ensures forall d :: 0 <= d < GlyphCount ==> MatchesPicture(d)
  {
    forall d | 0 <= d < GlyphCount
      ensures MatchesPicture(d)
    {
      RowMatchesPicture(d);
    }
  }

  /** The first `k` rows concatenated in order. */
  function RowsBefore(k: nat): (prefix: seq<byte>)
    requires k <= |Rows|
  {
    if k == 0 then [] else RowsBefore(k - 1) + Rows[k - 1]
  }

  /** The first eight rows, concatenated, are the first half of the table. */
  lemma LowHalf()
    ensures RowsBefore(8) == Rows[0] + Rows[1] + Rows[2] + Rows[3] + Rows[4] + Rows[5] + Rows[6] + Rows[7]
  {
    assert RowsBefore(1) == RowsBefore(0) + Rows[0];
    assert RowsBefore(2) == RowsBefore(1) + Rows[1];
    assert RowsBefore(3) == RowsBefore(2) + Rows[2];
    assert RowsBefore(4) == RowsBefore(3) + Rows[3];
    assert RowsBefore(5) == RowsBefore(4) + Rows[4];
    assert RowsBefore(6) == RowsBefore(5) + Rows[5];
    assert RowsBefore(7) == RowsBefore(6) + Rows[6];
    assert RowsBefore(8) == RowsBefore(7) + Rows[7];
  }

  /** The table is all sixteen rows concatenated in order. */
  lemma BytesAreAllRows()
    ensures Bytes == RowsBefore(GlyphCount)
  {
    LowHalf();
    assert RowsBefore(9) == RowsBefore(8) + Rows[8];
    assert RowsBefore(10) == RowsBefore(9) + Rows[9];
    assert RowsBefore(11) == RowsBefore(10) + Rows[10];
    assert RowsBefore(12) == RowsBefore(11) + Rows[11];
    assert RowsBefore(13) == RowsBefore(12) + Rows[12];
    assert RowsBefore(14) == RowsBefore(13) + Rows[13];
    assert RowsBefore(15) == RowsBefore(14) + Rows[14];
    assert RowsBefore(16) == RowsBefore(15) + Rows[15];
  }

  /** Every glyph is five rows high. */
  lemma RowsHaveHeight()
    ensures forall d :: 0 <= d < |Rows| ==> |Rows[d]| == GlyphHeight
  {
  }

  /** The first `k` rows take 5k bytes, and row `r` of glyph `d < k` sits at
      offset 5d + r. */
  lemma {:induction false} RowsBeforeLayout(k: nat, d: nat, r: nat)
    requires k <= |Rows| && d < k && r < GlyphHeight
    ensures |RowsBefore(k)| == GlyphHeight * k
    ensures GlyphHeight * d + r < |RowsBefore(k)| && RowsBefore(k)[GlyphHeight * d + r] == Rows[d][r]
  {
    RowsBeforeLength(k - 1);
    RowsHaveHeight();
    if d < k - 1 {
      RowsBeforeLayout(k - 1, d, r);
    }
  }

  lemma {:induction false} RowsBeforeLength(k: nat)
    requires k <= |Rows|
    ensures |RowsBefore(k)| == GlyphHeight * k
  {
    if k > 0 {
      RowsBeforeLength(k - 1);
      RowsHaveHeight();
    }
  }

  /** The table is 80 bytes long and holds row `r` of glyph `d` at offset
      5d + r. */
  lemma TableLayout()
    ensures |Bytes| == GlyphCount * GlyphHeight
    ensures forall d, r :: 0 <= d < GlyphCount && 0 <= r < GlyphHeight ==>
      && d < |Rows| && r < |Rows[d]| && GlyphHeight * d + r < |Bytes|
      && Bytes[GlyphHeight * d + r] == Rows[d][r]
  {
    BytesAreAllRows();
    RowsBeforeLength(GlyphCount);
    forall d, r | 0 <= d < GlyphCount && 0 <= r < GlyphHeight
      ensures GlyphHeight * d + r < |Bytes| && Bytes[GlyphHeight * d + r] == Rows[d][r]
    {
      RowsBeforeLayout(GlyphCount, d, r);
    }
  }

  /** Glyph `d` is the five bytes at 5d .. 5d+4 of the table. */
  lemma GlyphSlice(d: nat)
    requires d < GlyphCount
    ensures |Bytes| == GlyphCount * GlyphHeight
    ensures Bytes[GlyphHeight * d .. GlyphHeight * d + GlyphHeight] == Rows[d]
  {
    TableLayout();
  }
}
