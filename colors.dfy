/** Colours of the helmet's LED strip: the `#RRGGBB` strings the dashboard sends, the
    countdown alert band, the per-word hue and the way a palette is laid out on the strip. */
module Colors {

  /** Number of pixels on the strip. */
  const NUM_LEDS: nat := 83

  type byte = x: int | 0 <= x < 256

  /** One pixel colour, as `Adafruit_NeoPixel::Color(r, g, b)` packs it. */
  datatype Rgb = Rgb(r: byte, g: byte, b: byte)

  const Red: Rgb := Rgb(255, 0, 0)
  const Orange: Rgb := Rgb(255, 165, 0)
  const Yellow: Rgb := Rgb(255, 255, 0)
  const Green: Rgb := Rgb(0, 255, 0)
  const Off: Rgb := Rgb(0, 0, 0)

  // ---------------------------------------------------------------------------
  // Countdown alert band
  // ---------------------------------------------------------------------------

  /** The colour the whole strip takes while `remaining` seconds are left. */
  function AlertBand(remaining: int): (c: Rgb)
    ensures c == Red <==> remaining <= 3
    ensures c == Orange <==> 3 < remaining <= 6
    ensures c == Yellow <==> 6 < remaining
  {
    if remaining <= 3 then Red
    else if remaining <= 6 then Orange
    else Yellow
  }

  /** How alarming a band colour is: yellow 0, orange 1, red 2. */
  function Severity(c: Rgb): nat
  {
    if c == Red then 2 else if c == Orange then 1 else 0
  }

  /** As the countdown runs down the band never becomes less alarming. */
  lemma AlertBandEscalates(later: int, earlier: int)
    requires later <= earlier
    ensures Severity(AlertBand(later)) >= Severity(AlertBand(earlier))
    ensures earlier <= 3 ==> AlertBand(later) == Red
  {
  }

  // ---------------------------------------------------------------------------
  // Per-word hue
  // ---------------------------------------------------------------------------

  /** The 8-bit hue painted while word `index` is shown; the strip gets
      `ColorHSV(hue * 256)`. For a non-negative index the C remainder and the
      cast to `uint8_t` are both lossless. */
  function WordHue(index: nat): (hue: nat)
    ensures hue < 255
    ensures hue * 256 < 0x1_0000
    ensures hue % 5 == 0
  {
    var q := (index * 40) / 255;
    var h := (index * 40) % 255;
    assert h == 5 * (8 * index - 51 * q);
    h
  }

  /** Below ten, the product `index * 40` wraps past 255 at most once, from index 7 on. */
  lemma HueBelowTen(k: nat)
    requires k < 10
    ensures WordHue(k) == if k < 7 then 40 * k else 40 * k - 255
  {
  }

  /** Each of the ten word slots gets a hue of its own, so consecutive words always
      change the strip's colour. */
  lemma WordHuesDistinct(i: nat, j: nat)
    requires i < 10 && j < 10 && i != j
    ensures WordHue(i) != WordHue(j)
  {
    HueBelowTen(i);
    HueBelowTen(j);
  }

  // ---------------------------------------------------------------------------
  // Palette layout on the strip
  // ---------------------------------------------------------------------------

  /** Pixel `i` shows palette entry `i % |palette|`: the palette repeats along the strip. */
  function Pixels(palette: seq<Rgb>): (px: seq<Rgb>)
    requires |palette| > 0
    ensures |px| == NUM_LEDS
    ensures forall i :: 0 <= i < |px| ==> px[i] in palette
  {
    seq(NUM_LEDS, i requires 0 <= i < NUM_LEDS => palette[i % |palette|])
  }

  /** The whole strip in one colour (`setAllLEDs`). */
  function Uniform(c: Rgb): (px: seq<Rgb>)
    ensures |px| == NUM_LEDS
    ensures forall i :: 0 <= i < |px| ==> px[i] == c
  {
    seq(NUM_LEDS, _ => c)
  }

  /** A palette no longer than the strip is laid out in order from the first pixel, so
      every one of its colours is shown. */
  lemma PixelsShowPalette(palette: seq<Rgb>)
    requires 0 < |palette| <= NUM_LEDS
    ensures |Pixels(palette)| == NUM_LEDS
    ensures forall c :: c in palette ==> c in Pixels(palette)
    ensures Pixels(palette)[..|palette|] == palette
  {
    var px := Pixels(palette);
    forall j | 0 <= j < |palette|
      ensures px[j] == palette[j]
    {
      SmallRemainder(j, |palette|);
    }
    assert px[..|palette|] == palette;
    forall c | c in palette
      ensures c in px
    {
      var j :| 0 <= j < |palette| && palette[j] == c;
      assert px[j] == c;
    }
  }

  lemma SmallRemainder(j: nat, n: nat)
    requires j < n
    ensures j % n == j
  {
  }

  // ---------------------------------------------------------------------------
  // "#RRGGBB" decoding
  // ---------------------------------------------------------------------------

  predicate IsHexDigit(ch: char)
  {
    ('0' <= ch <= '9') || ('a' <= ch <= 'f') || ('A' <= ch <= 'F')
  }

  function HexDigitValue(ch: char): (v: nat)
    requires IsHexDigit(ch)
    ensures v < 16
  {
    if '0' <= ch <= '9' then ch as int - '0' as int
    else if 'a' <= ch <= 'f' then ch as int - 'a' as int + 10
    else ch as int - 'A' as int + 10
  }

  predicate AllHexDigits(digits: string)
  {
    forall i :: 0 <= i < |digits| ==> IsHexDigit(digits[i])
  }

  /** A well-formed dashboard colour: '#' followed by six hexadecimal digits. */
  predicate IsHexColor(s: string)
  {
    |s| == 7 && s[0] == '#' && AllHexDigits(s[1..])
  }

  /** What `strtol(digits, nullptr, 16)` yields for a string of hex digits: the digits read
      most significant first. */
  function HexValue(digits: string): (v: nat)
    requires AllHexDigits(digits)
    ensures v < Pow16(|digits|)
  {
    if digits == [] then 0
    else
      var init := digits[..|digits| - 1];
      assert AllHexDigits(init) by {
        forall i | 0 <= i < |init| ensures IsHexDigit(init[i]) { assert init[i] == digits[i]; }
      }
      var v0 := HexValue(init);
      var d := HexDigitValue(digits[|digits| - 1]);
      assert v0 * 16 + d < Pow16(|digits|) by { ScaleBelow(v0, Pow16(|init|), d); }
      v0 * 16 + d
  }

  function Pow16(n: nat): (p: nat)
    ensures p >= 1
  {
    if n == 0 then 1 else 16 * Pow16(n - 1)
  }

  lemma ScaleBelow(v: nat, bound: nat, d: nat)
    requires v < bound && d < 16
    ensures v * 16 + d < bound * 16
  {
  }

  /** The decoded colour of a well-formed `#RRGGBB` string: the 24-bit value split with
      `>> 16`, `>> 8` and `& 0xFF` (on a non-negative value a right shift by k is a
      division by 2^k). */
  function DecodeHex(s: string): (c: Rgb)
    requires IsHexColor(s)
    ensures c.r * 0x1_0000 + c.g * 0x100 + c.b == HexValue(s[1..])
  {
    var rgb := HexValue(s[1..]);
    SixDigitsBound();
    Recompose(rgb);
    Rgb((rgb / 0x1_0000) % 0x100, (rgb / 0x100) % 0x100, rgb % 0x100)
  }

  lemma SixDigitsBound()
    ensures Pow16(6) == 0x100_0000
  {
    assert Pow16(2) == 0x100;
    assert Pow16(4) == 0x1_0000;
  }

  /** Splitting a 24-bit value into three bytes loses nothing. */
  lemma Recompose(x: nat)
    requires x < 0x100_0000
    ensures ((x / 0x1_0000) % 0x100) * 0x1_0000 + ((x / 0x100) % 0x100) * 0x100 + x % 0x100 == x
  {
    var hi := x / 0x1_0000;
    var y := x / 0x100;
    assert hi < 0x100;
    assert y == hi * 0x100 + y % 0x100;
    assert x == y * 0x100 + x % 0x100;
  }

  /** The byte written by the two hex digits at `s[k]` and `s[k + 1]`. */
  function PairValue(s: string, k: nat): (v: byte)
    requires k + 1 < |s| && IsHexDigit(s[k]) && IsHexDigit(s[k + 1])
  {
    16 * HexDigitValue(s[k]) + HexDigitValue(s[k + 1])
  }

  lemma {:induction false} HexValueOfSix(t: string)
    requires |t| == 6 && AllHexDigits(t)
    ensures HexValue(t) == PairValue(t, 0) * 0x1_0000 + PairValue(t, 2) * 0x100 + PairValue(t, 4)
  {
    var v := seq(6, i requires 0 <= i < 6 => HexDigitValue(t[i]));
    assert t[..1][..0] == [] && t[..2][..1] == t[..1] && t[..3][..2] == t[..2];
    assert t[..4][..3] == t[..3] && t[..5][..4] == t[..4] && t[..6] == t && t[..5] == t[..|t| - 1];
    assert HexValue(t[..1]) == v[0];
    assert HexValue(t[..2]) == v[0] * 16 + v[1];
    assert HexValue(t[..3]) == (v[0] * 16 + v[1]) * 16 + v[2];
    assert HexValue(t[..4]) == ((v[0] * 16 + v[1]) * 16 + v[2]) * 16 + v[3];
    assert HexValue(t[..5]) == (((v[0] * 16 + v[1]) * 16 + v[2]) * 16 + v[3]) * 16 + v[4];
  }

  /** Three bytes are determined by the 24-bit value they make up. */
  lemma BytesUnique(a: byte, b: byte, c: byte, d: byte, e: byte, f: byte)
    requires a * 0x1_0000 + b * 0x100 + c == d * 0x1_0000 + e * 0x100 + f
    ensures a == d && b == e && c == f
  {
  }

  /** The shifts and masks read the red channel from the first digit pair, green from the
      second and blue from the third. */
  lemma DecodeHexChannels(s: string)
    requires IsHexColor(s)
    ensures DecodeHex(s) == Rgb(PairValue(s, 1), PairValue(s, 3), PairValue(s, 5))
  {
    var t := s[1..];
    var c := DecodeHex(s);
    var hi, mid, lo := PairValue(s, 1), PairValue(s, 3), PairValue(s, 5);
    assert PairValue(t, 0) == hi && PairValue(t, 2) == mid && PairValue(t, 4) == lo;
    HexValueOfSix(t);
    BytesUnique(c.r, c.g, c.b, hi, mid, lo);
  }

  const HexDigits: string := "0123456789ABCDEF"

  /** The `#RRGGBB` spelling of a colour, upper-case digits. */
  function EncodeHex(c: Rgb): (s: string)
  {
    ['#', HexDigits[c.r / 16], HexDigits[c.r % 16], HexDigits[c.g / 16], HexDigits[c.g % 16],
     HexDigits[c.b / 16], HexDigits[c.b % 16]]
  }

  lemma DigitRoundTrip(v: nat)
    requires v < 16
    ensures IsHexDigit(HexDigits[v]) && HexDigitValue(HexDigits[v]) == v
  {
  }

  /** Every colour survives being written as `#RRGGBB` and decoded again. */
  lemma DecodeEncodeHex(c: Rgb)
    ensures IsHexColor(EncodeHex(c))
    ensures DecodeHex(EncodeHex(c)) == c
  {
    var s := EncodeHex(c);
    DigitRoundTrip(c.r / 16); DigitRoundTrip(c.r % 16);
    DigitRoundTrip(c.g / 16); DigitRoundTrip(c.g % 16);
    DigitRoundTrip(c.b / 16); DigitRoundTrip(c.b % 16);
    assert AllHexDigits(s[1..]) by {
      forall i | 0 <= i < 6 ensures IsHexDigit(s[1..][i]) { assert s[1..][i] == s[i + 1]; }
    }
    DecodeHexChannels(s);
  }

  /** The palette of a colors message, one decoded colour per string, in order. */
  function DecodeAll(hexes: seq<string>): (colors: seq<Rgb>)
    requires forall i :: 0 <= i < |hexes| ==> IsHexColor(hexes[i])
    ensures |colors| == |hexes|
    ensures forall i :: 0 <= i < |hexes| ==> colors[i] == DecodeHex(hexes[i])
  {
    if hexes == [] then [] else DecodeAll(hexes[..|hexes| - 1]) + [DecodeHex(hexes[|hexes| - 1])]
  }
}
