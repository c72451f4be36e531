/**
 * The HDR tonemapping inspector: the sample colour map it paints into a
 * texture (an 8 by 8 grid of palette colours, brighter row by row), the
 * texture formats it offers per colour gamut, its message buffer and the
 * text that lists the preferred HDR parameters of each platform.  Colour
 * channels are reals; float rounding is not modelled.
 */
module HdrTonemappingEditor {
  import opened Wrappers
  import opened Text
  import UIHelper

  // ----------------------------------------------------------------------
  // The palette

  datatype Color = Color(r: real, g: real, b: real, a: real)

  /** `default(Color)`: every channel zero, as a fresh colour array holds. */
  const Black := Color(0.0, 0.0, 0.0, 0.0)

  /** Eight 3-bit colour codes packed in one word; the code of entry i starts at bit 3i. */
  const ColorPalette: bv32 := 0xFAB888

  /** The packing of `ColorPalette`, entry by entry (entry 0 is code 0). */
  lemma PaletteLayout()
    ensures ColorPalette == (1 << 3) | (2 << 6) | (4 << 9) | (3 << 12) | (5 << 15) | (6 << 18) | (7 << 21)
  {
  }

  /**
   * The 3-bit code of palette entry `colorIdx`, the index given as the bits
   * of a 32-bit int: the product `colorIdx * 3` wraps at 32 bits and the
   * shift uses only the low five bits of its count.
   */
  function ColorCode(colorIdx: bv32): (c: bv32)
    ensures c <= 7
  {
    (ColorPalette >> ((colorIdx * 3) & 31)) & 7
  }

  function Bit(code: bv32, i: nat): real
    requires i < 32
  {
    if (code >> i) & 1 == 1 then 1.0 else 0.0
  }

  /** Palette entry `colorIdx`: red, green and blue are the code's bits 0, 1 and 2. */
  function GetColor(colorIdx: bv32): (c: Color)
    ensures c.a == 1.0
    ensures (c.r == 0.0 || c.r == 1.0) && (c.g == 0.0 || c.g == 1.0) && (c.b == 0.0 || c.b == 1.0)
  {
    var code := ColorCode(colorIdx);
    Color(Bit(code, 0), Bit(code, 1), Bit(code, 2), 1.0)
  }

  /** The eight entries are the codes 0, 1, 2, 4, 3, 5, 6, 7: black, red, green, blue, yellow, magenta, cyan, white. */
  lemma PaletteCodes()
    ensures ColorCode(0) == 0 && ColorCode(1) == 1 && ColorCode(2) == 2 && ColorCode(3) == 4
    ensures ColorCode(4) == 3 && ColorCode(5) == 5 && ColorCode(6) == 6 && ColorCode(7) == 7
  {
  }

  /** The channels of the eight entries. */
  lemma PaletteColors()
    ensures GetColor(0) == Color(0.0, 0.0, 0.0, 1.0) && GetColor(1) == Color(1.0, 0.0, 0.0, 1.0)
    ensures GetColor(2) == Color(0.0, 1.0, 0.0, 1.0) && GetColor(3) == Color(0.0, 0.0, 1.0, 1.0)
    ensures GetColor(4) == Color(1.0, 1.0, 0.0, 1.0) && GetColor(5) == Color(1.0, 0.0, 1.0, 1.0)
    ensures GetColor(6) == Color(0.0, 1.0, 1.0, 1.0) && GetColor(7) == Color(1.0, 1.0, 1.0, 1.0)
  {
    PaletteCodes();
  }

  /** The eight palette colours are pairwise different. */
  lemma PaletteDistinct(i: bv32, j: bv32)
    requires i < 8 && j < 8 && i != j
    ensures GetColor(i) != GetColor(j)
  {
    PaletteColors();
    var palette := [GetColor(0), GetColor(1), GetColor(2), GetColor(3), GetColor(4), GetColor(5), GetColor(6), GetColor(7)];
    assert GetColor(i) == palette[i] && GetColor(j) == palette[j] by {
      if i == 0 {} else if i == 1 {} else if i == 2 {} else if i == 3 {} else if i == 4 {} else if i == 5 {} else if i == 6 {}
      if j == 0 {} else if j == 1 {} else if j == 2 {} else if j == 3 {} else if j == 4 {} else if j == 5 {} else if j == 6 {}
    }
  }

  /** The colour with its red, green and blue scaled (alpha kept). */
  function Scale(c: Color, s: real): Color
  {
    Color(c.r * s, c.g * s, c.b * s, c.a)
  }

  // ----------------------------------------------------------------------
  // Integer arithmetic used by the grid

  lemma MulLe(a: int, b: int, w: int)
    requires a <= b && w >= 0
    ensures a * w <= b * w
  {
    assert b * w - a * w == (b - a) * w;
  }

  /** Row `y` and column `x` of a flat index, for a row of `width` cells. */
  lemma RowCol(k: int, width: int, y: int, x: int)
    requires width > 0 && 0 <= x < width && k == y * width + x
    ensures k / width == y && k % width == x
  {
    var q, r := k / width, k % width;
    assert k == q * width + r;
    if q < y {
      MulLe(q + 1, y, width);
    } else if q > y {
      MulLe(y + 1, q, width);
    }
  }

  /** Division by `d` against a lower and an upper bound. */
  lemma DivBounds(p: int, d: int, b: int)
    requires d > 0 && p >= 0
    ensures b * d <= p <==> b <= p / d
    ensures p < b * d + d <==> p / d <= b
  {
    var q, r := p / d, p % d;
    assert p == q * d + r && 0 <= r < d;
    if b <= q {
      MulLe(b, q, d);
    } else {
      MulLe(q + 1, b, d);
      assert (q + 1) * d == q * d + d;
    }
    if q <= b {
      MulLe(q, b, d);
    } else {
      MulLe(b + 1, q, d);
      assert (b + 1) * d == b * d + d;
    }
  }

  lemma DivNonNegative(k: int, width: int)
    requires width > 0 && k >= 0
    ensures k / width >= 0 && k % width >= 0
  {
    DivBounds(k, width, 0);
  }

  /** The row of flat index `k` in a `width`-wide image. */
  function Row(k: int, width: int): nat
    requires width > 0 && k >= 0
  {
    DivNonNegative(k, width);
    k / width
  }

  /** The column of flat index `k` in a `width`-wide image. */
  function Col(k: int, width: int): nat
    requires width > 0 && k >= 0
  {
    DivNonNegative(k, width);
    k % width
  }

  /** A flat index of a `width` by `height` image has a column below `width` and a row below `height`. */
  lemma IndexInImage(k: int, width: int, height: int)
    requires width > 0 && height > 0 && 0 <= k < width * height
    ensures 0 <= k % width < width && 0 <= k / width < height
  {
    var q, r := k / width, k % width;
    assert k == q * width + r && 0 <= r < width;
    if q >= height {
      MulLe(height, q, width);
      assert false;
    }
    if q < 0 {
      MulLe(q, -1, width);
      assert false;
    }
  }

  // ----------------------------------------------------------------------
  // Fill: one block of the flat colour array

  /** Index `k` lies in rows [y0, y1) and columns [x0, x1) of a `width`-wide image. */
  predicate InBlock(k: int, width: int, x0: int, y0: int, x1: int, y1: int)
    requires width > 0
  {
    y0 <= k / width < y1 && x0 <= k % width < x1
  }

  /**
   * `Fill`: the colour is written exactly at the indices y * width + x of the
   * block, and every other index keeps its colour.  The block lies within
   * the image's width, as every caller passes it.
   */
  method Fill(colorMap: array<Color>, width: int, beginPosX: int, beginPosY: int, endPosX: int, endPosY: int, color: Color)
    requires width > 0 && 0 <= beginPosX <= endPosX <= width && 0 <= beginPosY <= endPosY
    requires endPosY * width <= colorMap.Length
    modifies colorMap
    ensures forall k :: 0 <= k < colorMap.Length ==>
      colorMap[k] == if InBlock(k, width, beginPosX, beginPosY, endPosX, endPosY) then color else old(colorMap[k])
  {
    var posY := beginPosY;
    var offsetY := beginPosY * width + beginPosX;
    while posY < endPosY
      invariant beginPosY <= posY <= endPosY
      invariant offsetY == posY * width + beginPosX
      invariant forall k :: 0 <= k < colorMap.Length ==>
        colorMap[k] == if InBlock(k, width, beginPosX, beginPosY, endPosX, posY) then color else old(colorMap[k])
    {
      MulLe(posY + 1, endPosY, width);
      assert (posY + 1) * width == posY * width + width;
      FillRow(colorMap, width, offsetY, posY, beginPosX, endPosX, color);
      posY := posY + 1;
      offsetY := offsetY + width;
      assert offsetY == posY * width + beginPosX by {
        assert posY * width == (posY - 1) * width + width;
      }
    }
  }

  /** The inner loop of `Fill`: row `posY` from column `beginPosX` up to `endPosX`, starting at flat index `offsetX`. */
  method FillRow(colorMap: array<Color>, width: int, offsetX: int, posY: int, beginPosX: int, endPosX: int, color: Color)
    requires width > 0 && 0 <= beginPosX <= endPosX <= width && posY >= 0
    requires offsetX == posY * width + beginPosX && posY * width + width <= colorMap.Length
    modifies colorMap
    ensures forall k :: 0 <= k < colorMap.Length ==>
      colorMap[k] == if k / width == posY && beginPosX <= k % width < endPosX then color else old(colorMap[k])
  {
    var posX := beginPosX;
    var offset := offsetX;
    while posX < endPosX
      invariant beginPosX <= posX <= endPosX
      invariant offset == offsetX + (posX - beginPosX)
      invariant forall k :: 0 <= k < colorMap.Length ==>
        colorMap[k] == if offsetX <= k < offset then color else old(colorMap[k])
    {
      colorMap[offset] := color;
      posX := posX + 1;
      offset := offset + 1;
    }
    forall k | 0 <= k < colorMap.Length
      ensures (offsetX <= k < offset) == (k / width == posY && beginPosX <= k % width < endPosX)
    {
      RowRange(k, width, posY, beginPosX, endPosX);
    }
  }

  /** The flat indices from column `x0` up to `x1` of row `y` form one run. */
  lemma RowRange(k: int, width: int, y: int, x0: int, x1: int)
    requires width > 0 && 0 <= x0 <= x1 <= width
    ensures (y * width + x0 <= k < y * width + x1) == (k / width == y && x0 <= k % width < x1)
  {
    if y * width + x0 <= k < y * width + x1 {
      RowCol(k, width, y, k - y * width);
    }
    if k / width == y && x0 <= k % width < x1 {
      assert k == (k / width) * width + k % width;
    }
  }

  // ----------------------------------------------------------------------
  // The 8 by 8 grid

  const Resolution: int := 8

  function BlockSize(size: int): int
  {
    size / Resolution
  }

  function BlockBegin(b: int, size: int): int
  {
    b * BlockSize(size)
  }

  /** Blocks are `size / 8` wide, except the last, which runs to the edge. */
  function BlockEnd(b: int, size: int): int
  {
    if b < Resolution - 1 then BlockBegin(b, size) + BlockSize(size) else size
  }

  /** The block a position falls into (an independent statement of the partition). */
  function BlockOf(p: int, size: int): (b: int)
    requires size > 0 && p >= 0
    ensures 0 <= b < Resolution
  {
    if BlockSize(size) == 0 then Resolution - 1
    else if DivNonNegative(p, BlockSize(size)); p / BlockSize(size) < Resolution - 1 then p / BlockSize(size)
    else Resolution - 1
  }

  /** The blocks tile [0, size): each position lies in exactly one block, the one `BlockOf` names. */
  lemma BlocksTile(p: int, size: int, b: int)
    requires size > 0 && 0 <= p < size && 0 <= b < Resolution
    ensures BlockBegin(b, size) <= p < BlockEnd(b, size) <==> b == BlockOf(p, size)
  {
    var bs := BlockSize(size);
    if bs > 0 {
      DivBounds(p, bs, b);
      if b == Resolution - 1 {
        DivBounds(p, bs, Resolution - 2);
      }
    } else {
      assert BlockBegin(b, size) == 0;
    }
  }

  /** Every block lies within [0, size). */
  lemma BlockBounds(b: int, size: int)
    requires size > 0 && 0 <= b < Resolution
    ensures 0 <= BlockBegin(b, size) <= BlockEnd(b, size) <= size
  {
    var bs := BlockSize(size);
    assert bs >= 0;
    MulLe(b + 1, Resolution, bs);
    assert (b + 1) * bs == b * bs + bs;
    assert Resolution * bs <= size;
    MulLe(0, b, bs);
    MulLe(b, Resolution, bs);
  }

  /** Row `y` is scaled by 2y/7: from black at the top row to twice the palette at the bottom one. */
  function RowScale(y: int): real
  {
    (y as real / (Resolution - 1) as real) * 2.0
  }

  function BlockColor(colorIdx: int, y: int): Color
    requires 0 <= colorIdx < Resolution
  {
    Scale(GetColor(colorIdx as bv32), RowScale(y))
  }

  /** The colour `GenerateSimpleColormap` paints at flat index `k`. */
  function PixelColor(k: int, width: int, height: int): Color
    requires width > 0 && height > 0 && k >= 0
  {
    DivNonNegative(k, width);
    BlockColor(BlockOf(Col(k, width), width), BlockOf(Row(k, width), height))
  }

  /** Where block (colorIdx, y) is, in terms of `InBlock`. */
  lemma InBlockIsBlock(k: int, width: int, height: int, colorIdx: int, y: int)
    requires width > 0 && height > 0 && 0 <= k < width * height
    requires 0 <= colorIdx < Resolution && 0 <= y < Resolution
    ensures InBlock(k, width, BlockBegin(colorIdx, width), BlockBegin(y, height), BlockEnd(colorIdx, width), BlockEnd(y, height))
      <==> BlockOf(Col(k, width), width) == colorIdx && BlockOf(Row(k, width), height) == y
  {
    var col, row := Col(k, width), Row(k, width);
    var inCol := BlockBegin(colorIdx, width) <= col < BlockEnd(colorIdx, width);
    var inRow := BlockBegin(y, height) <= row < BlockEnd(y, height);
    assert inCol <==> BlockOf(col, width) == colorIdx by {
      IndexInImage(k, width, height);
      BlocksTile(col, width, colorIdx);
    }
    assert inRow <==> BlockOf(row, height) == y by {
      IndexInImage(k, width, height);
      BlocksTile(row, height, y);
    }
  }

  /**
   * `GenerateSimpleColormap`: every pixel gets the palette colour of its
   * column block, scaled for its row block.
   */
  method GenerateSimpleColormap(width: int, height: int) returns (colorMap: array<Color>)
    requires width > 0 && height > 0
    ensures colorMap.Length == width * height && fresh(colorMap)
    ensures forall k :: 0 <= k < colorMap.Length ==> colorMap[k] == PixelColor(k, width, height)
  {
    colorMap := new Color[width * height](_ => Black);
    var y := 0;
    while y < Resolution
      invariant 0 <= y <= Resolution
      invariant colorMap.Length == width * height && fresh(colorMap)
      invariant forall k :: 0 <= k < colorMap.Length ==>
        colorMap[k] == if BlockOf(Row(k, width), height) < y then PixelColor(k, width, height) else Black
    {
      FillBlockRow(colorMap, width, height, y);
      y := y + 1;
    }
  }

  /** One pass of the outer loop of `GenerateSimpleColormap`: the eight blocks of block row `y`, left to right. */
  method FillBlockRow(colorMap: array<Color>, width: int, height: int, y: int)
    requires width > 0 && height > 0 && 0 <= y < Resolution && colorMap.Length == width * height
    requires forall k :: 0 <= k < colorMap.Length ==>
      colorMap[k] == if BlockOf(Row(k, width), height) < y then PixelColor(k, width, height) else Black
    modifies colorMap
    ensures forall k :: 0 <= k < colorMap.Length ==>
      colorMap[k] == if BlockOf(Row(k, width), height) < y + 1 then PixelColor(k, width, height) else Black
  {
    var beginY := y * BlockSize(height);
    var endY := if y < Resolution - 1 then beginY + BlockSize(height) else height;
    var scalerY := RowScale(y);
    BlockBounds(y, height);
    MulLe(endY, height, width);
    var colorIdx := 0;
    while colorIdx < Resolution
      invariant 0 <= colorIdx <= Resolution
      invariant forall k :: 0 <= k < colorMap.Length ==>
        colorMap[k] == if BlockOf(Row(k, width), height) < y || (BlockOf(Row(k, width), height) == y && BlockOf(Col(k, width), width) < colorIdx)
          then PixelColor(k, width, height) else Black
    {
      var color := Scale(GetColor(colorIdx as bv32), scalerY);
      var beginX := colorIdx * BlockSize(width);
      var endX := if colorIdx < Resolution - 1 then beginX + BlockSize(width) else width;
      BlockBounds(colorIdx, width);
      Fill(colorMap, width, beginX, beginY, endX, endY, color);
      forall k | 0 <= k < colorMap.Length
        ensures colorMap[k] == if BlockOf(Row(k, width), height) < y || (BlockOf(Row(k, width), height) == y && BlockOf(Col(k, width), width) < colorIdx + 1)
          then PixelColor(k, width, height) else Black
      {
        InBlockIsBlock(k, width, height, colorIdx, y);
        IndexInImage(k, width, height);
      }
      colorIdx := colorIdx + 1;
    }
  }

  // ----------------------------------------------------------------------
  // Formats, messages and sample textures

  datatype ColorGamut = SRGB | Rec709 | Rec2020 | DisplayP3 | HDR10 | DolbyHDR | P3D65G22
  datatype GraphicsFormat = R8G8B8A8UNorm | R8G8B8A8SRGB | R32G32B32A32SFloat

  /** The sample formats offered for a gamut: two 8-bit ones for sRGB, one float format otherwise. */
  function GetGraphicsFormats(colorGamut: ColorGamut): (formats: seq<GraphicsFormat>)
    ensures colorGamut == SRGB ==> formats == [R8G8B8A8UNorm, R8G8B8A8SRGB]
    ensures colorGamut != SRGB ==> formats == [R32G32B32A32SFloat]
  {
    match colorGamut
    case SRGB => [R8G8B8A8UNorm, R8G8B8A8SRGB]
    case HDR10 => [R32G32B32A32SFloat]
    case Rec709 => [R32G32B32A32SFloat]
    case Rec2020 => [R32G32B32A32SFloat]
    case _ => [R32G32B32A32SFloat]
  }

  /** The format popup is enabled (more than one choice) exactly for sRGB, and every offered format is 8-bit only for sRGB. */
  lemma FormatPopupLaw(colorGamut: ColorGamut)
    ensures |GetGraphicsFormats(colorGamut)| > 1 <==> colorGamut == SRGB
    ensures forall f :: f in GetGraphicsFormats(colorGamut) ==> (f == R32G32B32A32SFloat <==> colorGamut != SRGB)
  {
  }

  /** `AppendMessage`: a null buffer becomes the message, otherwise the message goes on a new line. */
  function AppendMessage(messageBuf: Option<string>, message: string): (r: Option<string>)
    ensures r.Some?
    ensures messageBuf.None? ==> r.value == message
    ensures messageBuf.Some? ==> r.value == messageBuf.value + "\n" + message
  {
    if messageBuf.None? then Some(message) else Some(messageBuf.value + "\n" + message)
  }

  /** Messages appended one after another, starting from a null buffer. */
  function AppendAll(messages: seq<string>): Option<string>
  {
    if |messages| == 0 then None else AppendMessage(AppendAll(messages[..|messages| - 1]), messages[|messages| - 1])
  }

  /** Appended messages are the buffer's lines, in order, and read back by splitting on line breaks. */
  lemma {:induction false} AppendAllLaw(messages: seq<string>)
    ensures |messages| == 0 ==> AppendAll(messages).None?
    ensures |messages| > 0 ==> AppendAll(messages) == Some(Join(messages, '\n'))
    ensures |messages| > 0 && NoSep(messages, '\n') ==> Split(AppendAll(messages).value, '\n') == messages
  {
    if |messages| == 1 {
      assert messages[..0] == [];
    } else if |messages| > 1 {
      var init := messages[..|messages| - 1];
      AppendAllLaw(init);
      JoinSnoc(init, messages[|messages| - 1], '\n');
      assert init + [messages[|messages| - 1]] == messages;
    }
    if |messages| > 0 && NoSep(messages, '\n') {
      SplitJoin(messages, '\n');
    }
  }

  /** A provider's preferred HDR parameters, with the numbers already formatted as text. */
  datatype PreferredHdr = PreferredHdr(
    provider: UIHelper.PlatformProvider,
    colorGamut: string,
    nitsForPaperWhite: string,
    maxDisplayNits: string,
    hasNits: bool)

  /** One provider's paragraph: a heading, the gamut and, when either is positive, the two luminances. */
  function Paragraph(p: PreferredHdr): string
  {
    "Device HDR Params (" + UIHelper.ProviderDisplayName(Some(p.provider)) + ")\n"
    + "ColorGamut: " + p.colorGamut
    + (if p.hasNits then "\nNitsForPaperWhite: " + p.nitsForPaperWhite + "\nMaxDisplayNits: " + p.maxDisplayNits else "")
  }

  /** The text the loop has built after the first `n` providers. */
  function MessageUpTo(providers: seq<PreferredHdr>, n: nat): string
    requires n <= |providers|
  {
    if n == 0 then ""
    else MessageUpTo(providers, n - 1) + (if n - 1 > 0 then "\n" else "") + Paragraph(providers[n - 1])
  }

  /** `GeneratePreferredHDRParamsMessage`: null for a null or empty provider list. */
  method GeneratePreferredHdrParamsMessage(providers: Option<seq<PreferredHdr>>) returns (r: Option<string>)
    ensures r.None? <==> providers.None? || |providers.value| == 0
    ensures r.Some? ==> r.value == MessageUpTo(providers.value, |providers.value|)
  {
    if providers.None? || |providers.value| == 0 {
      return None;
    }
    var all := providers.value;
    var needToAddNewLine := false;
    var text := "";
    var i := 0;
    while i < |all|
      invariant 0 <= i <= |all|
      invariant needToAddNewLine <==> i > 0
      invariant text == MessageUpTo(all, i)
      invariant i > 0 ==> |text| > 0
    {
      if needToAddNewLine {
        text := text + "\n";
      }
      text := text + Paragraph(all[i]);
      needToAddNewLine := true;
      i := i + 1;
    }
    return if |text| > 0 then Some(text) else None;
  }

  /** The paragraphs of the first `n` providers, in order. */
  function Paragraphs(providers: seq<PreferredHdr>, n: nat): (ps: seq<string>)
    requires n <= |providers|
    ensures |ps| == n
    ensures forall i :: 0 <= i < n ==> ps[i] == Paragraph(providers[i])
  {
    if n == 0 then [] else Paragraphs(providers, n - 1) + [Paragraph(providers[n - 1])]
  }

  /** The paragraphs are joined by single line breaks. */
  lemma {:induction false} MessageIsJoined(providers: seq<PreferredHdr>, n: nat)
    requires 1 <= n <= |providers|
    ensures MessageUpTo(providers, n) == Join(Paragraphs(providers, n), '\n')
  {
    if n == 1 {
      assert MessageUpTo(providers, 0) == "";
      assert Paragraphs(providers, 1) == [Paragraph(providers[0])];
    } else {
      MessageIsJoined(providers, n - 1);
      JoinSnoc(Paragraphs(providers, n - 1), Paragraph(providers[n - 1]), '\n');
    }
  }

  const TextureNamePrefix: string := "HDRTonemapping Sample"

  /** A texture the editor may hold; `name` is the engine object's name. */
  datatype SampleTexture = SampleTexture(id: nat, name: string)

  /** `DestroySampleTexture`: only a texture whose name carries the sample prefix is destroyed. */
  predicate DestroysSampleTexture(texture: Option<SampleTexture>)
  {
    texture.Some? && StartsWith(texture.value.name, TextureNamePrefix)
  }

  /** The name a generated sample receives: the prefix and the parameters it was made with. */
  function SampleName(parameters: string): string
  {
    TextureNamePrefix + parameters
  }

  /**
   * A generated sample is destroyed when the next one replaces it, and a
   * texture whose name does not start with the prefix never is.
   */
  lemma SampleTextureLaw(id: nat, parameters: string, other: Option<SampleTexture>)
    ensures DestroysSampleTexture(Some(SampleTexture(id, SampleName(parameters))))
    ensures other.Some? && !StartsWith(other.value.name, TextureNamePrefix) ==> !DestroysSampleTexture(other)
    ensures !DestroysSampleTexture(None)
  {
    assert (TextureNamePrefix + parameters)[..|TextureNamePrefix|] == TextureNamePrefix;
  }
}
