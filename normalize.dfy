/** src/normalizeValue.ts: numbers get a `px` unit unless the property is
    unitless, colour strings are resolved to a canonical hex or `rgba()`
    text, everything else passes through. The colour resolver and the
    two-decimal alpha text are foreign (`Types.Foreign`). */
module NormalizeValue {
  import opened Types

  /** Properties whose numbers carry no unit (normalizeValue.ts:10-45). */
  const UnitlessProperties: set<string> := {
    "animationIterationCount", "aspectRatio", "borderImageOutset", "borderImageSlice",
    "borderImageWidth", "columnCount", "flex", "flexGrow", "flexShrink", "fontWeight",
    "gridColumnEnd", "gridColumnStart", "gridRowEnd", "gridRowStart", "lineClamp",
    "lineHeight", "opacity", "order", "orphans", "scale", "tabSize", "widows", "zIndex",
    "zoom",
    "fillOpacity", "floodOpacity", "stopOpacity", "strokeDasharray", "strokeDashoffset",
    "strokeMiterlimit", "strokeOpacity", "strokeWidth"
  }

  /** Properties whose string values are colours (normalizeValue.ts:50-59). */
  const ColorProperties: set<string> := {
    "backgroundColor", "borderBottomColor", "borderColor", "borderLeftColor",
    "borderRightColor", "borderTopColor", "color", "textDecorationColor"
  }

  type Byte = x: int | 0 <= x < 256

  /** Colour values passed through without resolution. */
  predicate IsWebColor(color: string) {
    color == "currentcolor" || color == "currentColor" || color == "inherit" ||
    (|color| >= 4 && color[..4] == "var(")
  }

  // ----- decimal text of integers (`String(n)` and template literals) -----

  function Digit(d: int): (c: char)
    requires 0 <= d < 10
    ensures '0' <= c <= '9'
  {
    "0123456789"[d]
  }

  function NatText(n: nat): (s: string)
    ensures |s| >= 1
    ensures forall i :: 0 <= i < |s| ==> '0' <= s[i] <= '9'
    decreases n
  {
    if n < 10 then [Digit(n)] else NatText(n / 10) + [Digit(n % 10)]
  }

  function IntText(n: int): string {
    if n < 0 then "-" + NatText(-n) else NatText(n)
  }

  /** Reads a run of decimal digits back; the partner of `NatText`. */
  function ParseNat(s: string): Option<nat>
    decreases |s|
  {
    if s == [] || !('0' <= s[|s| - 1] <= '9') then None
    else
      var d := s[|s| - 1] as int - '0' as int;
      if |s| == 1 then Some(d)
      else match ParseNat(s[..|s| - 1])
        case Some(m) => Some(10 * m + d)
        case None => None
  }

  lemma {:induction false} NatTextRoundTrip(n: nat)
    ensures ParseNat(NatText(n)) == Some(n)
    decreases n
  {
    if n >= 10 {
      NatTextRoundTrip(n / 10);
      var s := NatText(n);
      assert s[..|s| - 1] == NatText(n / 10);
    }
  }

  // ----- hex colours -----

  function HexDigit(n: int): (c: char)
    requires 0 <= n < 16
  {
    "0123456789abcdef"[n]
  }

  /** `rgbToHex`: `#` and three digits when each channel's two nibbles agree,
      six digits otherwise. `x >> 4` and `x & 0xf` are `x / 16` and `x % 16`
      on bytes. */
  function RgbToHex(r: Byte, g: Byte, b: Byte): (h: string)
    ensures |h| == (if ShortForm(r, g, b) then 4 else 7)
    ensures h[0] == '#'
  {
    var r1, r2, g1, g2, b1, b2 := r / 16, r % 16, g / 16, g % 16, b / 16, b % 16;
    if r1 == r2 && g1 == g2 && b1 == b2 then
      ['#', HexDigit(r1), HexDigit(g1), HexDigit(b1)]
    else
      ['#', HexDigit(r1), HexDigit(r2), HexDigit(g1), HexDigit(g2), HexDigit(b1), HexDigit(b2)]
  }

  function HexValue(c: char): Option<int> {
    if '0' <= c <= '9' then Some(c as int - '0' as int)
    else if 'a' <= c <= 'f' then Some(c as int - 'a' as int + 10)
    else None
  }

  /** How CSS reads a `#rgb` or `#rrggbb` colour; the partner of
      `RgbToHex`. */
  function DecodeHex(s: string): Option<(int, int, int)> {
    if |s| == 4 && s[0] == '#' && HexValue(s[1]).Some? && HexValue(s[2]).Some? && HexValue(s[3]).Some? then
      Some((17 * HexValue(s[1]).value, 17 * HexValue(s[2]).value, 17 * HexValue(s[3]).value))
    else if |s| == 7 && s[0] == '#' && HexValue(s[1]).Some? && HexValue(s[2]).Some? && HexValue(s[3]).Some?
         && HexValue(s[4]).Some? && HexValue(s[5]).Some? && HexValue(s[6]).Some? then
      Some((16 * HexValue(s[1]).value + HexValue(s[2]).value,
            16 * HexValue(s[3]).value + HexValue(s[4]).value,
            16 * HexValue(s[5]).value + HexValue(s[6]).value))
    else None
  }

  lemma HexDigitValue(n: int)
    requires 0 <= n < 16
    ensures HexValue(HexDigit(n)) == Some(n)
  {
    var t := "0123456789abcdef";
    assert t[0] == '0' && t[1] == '1' && t[2] == '2' && t[3] == '3' && t[4] == '4' && t[5] == '5';
    assert t[6] == '6' && t[7] == '7' && t[8] == '8' && t[9] == '9' && t[10] == 'a' && t[11] == 'b';
    assert t[12] == 'c' && t[13] == 'd' && t[14] == 'e' && t[15] == 'f';
  }

  /** One channel written as two hex digits reads back as itself. */
  lemma ChannelPair(x: Byte)
    ensures HexValue(HexDigit(x / 16)) == Some(x / 16)
    ensures HexValue(HexDigit(x % 16)) == Some(x % 16)
    ensures 16 * (x / 16) + x % 16 == x
  {
    HexDigitValue(x / 16);
    HexDigitValue(x % 16);
  }

  /** One channel with equal nibbles written as one hex digit reads back as
      itself. */
  lemma ChannelSingle(x: Byte)
    requires x / 16 == x % 16
    ensures HexValue(HexDigit(x / 16)) == Some(x / 16)
    ensures 17 * (x / 16) == x
  {
    HexDigitValue(x / 16);
  }

  lemma DecodeShort(d1: char, d2: char, d3: char, x: int, y: int, z: int)
    requires HexValue(d1) == Some(x) && HexValue(d2) == Some(y) && HexValue(d3) == Some(z)
    ensures DecodeHex(['#', d1, d2, d3]) == Some((17 * x, 17 * y, 17 * z))
  {
  }

  lemma DecodeLong(d1: char, d2: char, d3: char, d4: char, d5: char, d6: char, x1: int, x2: int, y1: int, y2: int, z1: int, z2: int)
    requires HexValue(d1) == Some(x1) && HexValue(d2) == Some(x2)
    requires HexValue(d3) == Some(y1) && HexValue(d4) == Some(y2)
    requires HexValue(d5) == Some(z1) && HexValue(d6) == Some(z2)
    ensures DecodeHex(['#', d1, d2, d3, d4, d5, d6]) == Some((16 * x1 + x2, 16 * y1 + y2, 16 * z1 + z2))
  {
  }

  predicate ShortForm(r: Byte, g: Byte, b: Byte) {
    r / 16 == r % 16 && g / 16 == g % 16 && b / 16 == b % 16
  }

  lemma ShortHexDecodes(r: Byte, g: Byte, b: Byte)
    requires ShortForm(r, g, b)
    ensures DecodeHex(RgbToHex(r, g, b)) == Some((r, g, b))
  {
    ChannelSingle(r); ChannelSingle(g); ChannelSingle(b);
    DecodeShort(HexDigit(r / 16), HexDigit(g / 16), HexDigit(b / 16), r / 16, g / 16, b / 16);
  }

  lemma LongHexDecodes(r: Byte, g: Byte, b: Byte)
    requires !ShortForm(r, g, b)
    ensures DecodeHex(RgbToHex(r, g, b)) == Some((r, g, b))
  {
    ChannelPair(r); ChannelPair(g); ChannelPair(b);
    DecodeLong(HexDigit(r / 16), HexDigit(r % 16), HexDigit(g / 16), HexDigit(g % 16), HexDigit(b / 16), HexDigit(b % 16),
               r / 16, r % 16, g / 16, g % 16, b / 16, b % 16);
  }

  /** Both forms of `rgbToHex` denote the channels they were built from. */
  lemma RgbToHexDecodes(r: Byte, g: Byte, b: Byte)
    ensures DecodeHex(RgbToHex(r, g, b)) == Some((r, g, b))
  {
    if ShortForm(r, g, b) {
      ShortHexDecodes(r, g, b);
    } else {
      LongHexDecodes(r, g, b);
    }
  }

  // ----- resolved colours -----

  /** The channel extraction of normalizeValue.ts:102-109: the resolver packs
      `0xRRGGBBAA`; the source rotates it to `0xAARRGGBB` and takes bytes.
      The arithmetic shift `>>` differs from the logical one only in bits the
      `& 255` masks drop. */
  function Channels(c: Packed): (ch: (Byte, Byte, Byte, Byte))
    ensures ch.0 == (c >> 24) as int
    ensures ch.1 == ((c >> 16) & 0xff) as int
    ensures ch.2 == ((c >> 8) & 0xff) as int
    ensures ch.3 == (c & 0xff) as int
  {
    var x: bv32 := (c << 24) | (c >> 8);
    var r, g, b, a := (x >> 16) & 0xff, (x >> 8) & 0xff, x & 0xff, (x >> 24) & 0xff;
    RotatedBytes(c);
    (ByteOf(r), ByteOf(g), ByteOf(b), ByteOf(a))
  }

  function ByteOf(x: bv32): (n: Byte)
    requires x <= 0xff
    ensures n == x as int
  {
    x as int
  }

  lemma RotatedBytes(c: bv32)
    ensures var x: bv32 := (c << 24) | (c >> 8);
      && (x >> 16) & 0xff == c >> 24
      && (x >> 8) & 0xff == (c >> 16) & 0xff
      && x & 0xff == (c >> 8) & 0xff
      && (x >> 24) & 0xff == c & 0xff
      && c >> 24 <= 0xff && (c >> 16) & 0xff <= 0xff && (c >> 8) & 0xff <= 0xff && c & 0xff <= 0xff
  {
  }

  /** The text a resolved colour is rendered as: hex when fully opaque,
      `rgba(r,g,b,a)` otherwise, with a literal `0` for full transparency. */
  function ColorText(f: Foreign, c: Packed): string {
    var ch := Channels(c);
    if ch.3 == 255 then RgbToHex(ch.0, ch.1, ch.2)
    else "rgba(" + NatText(ch.0) + "," + NatText(ch.1) + "," + NatText(ch.2) + ","
         + (if ch.3 == 0 then "0" else f.alphaText(ch.3)) + ")"
  }

  /** `normalizeValue(key, value)` without its memo table. */
  function NormalizedValue(f: Foreign, key: string, value: Value): string
    requires IsScalar(value)
  {
    match value
    case Num(n) => if key in UnitlessProperties then IntText(n) else IntText(n) + "px"
    case Str(s) =>
      if key in ColorProperties && !IsWebColor(s) && f.resolveColor(s).Some? then
        ColorText(f, f.resolveColor(s).value)
      else s
  }

  /** Reads an optional `-` and a run of decimal digits back; the partner
      of `IntText`. */
  function ParseInt(s: string): Option<int> {
    if |s| > 0 && s[0] == '-' then
      match ParseNat(s[1..])
      case Some(m) => if m == 0 then None else Some(-(m as int))
      case None => None
    else match ParseNat(s)
      case Some(m) => Some(m as int)
      case None => None
  }

  lemma IntTextRoundTrip(n: int)
    ensures ParseInt(IntText(n)) == Some(n)
  {
    if n < 0 {
      NatTextRoundTrip(-n);
      assert IntText(n)[1..] == NatText(-n);
    } else {
      NatTextRoundTrip(n);
    }
  }

  /** A number reads back as itself once the `px` suffix of a length is
      removed; a unitless number reads back with no suffix. */
  lemma NumberReadsBack(f: Foreign, key: string, n: int)
    ensures var t := NormalizedValue(f, key, Num(n));
            if key in UnitlessProperties then ParseInt(t) == Some(n)
            else |t| > 2 && t[|t| - 2..] == "px" && ParseInt(t[..|t| - 2]) == Some(n)
  {
    IntTextRoundTrip(n);
    var t := NormalizedValue(f, key, Num(n));
    if key !in UnitlessProperties {
      assert t == IntText(n) + "px";
      assert t[..|t| - 2] == IntText(n);
    }
  }

  /** A string for a property outside the colour set is returned as it is;
      so is a web colour keyword, a `var(` reference or an unresolvable
      string for a colour property. */
  lemma StringPassesThrough(f: Foreign, key: string, s: string)
    requires key !in ColorProperties || IsWebColor(s) || f.resolveColor(s).None?
    ensures NormalizedValue(f, key, Str(s)) == s
  {
  }

  /** An opaque resolved colour renders as hex text that denotes exactly the
      resolver's red, green and blue bytes. */
  lemma OpaqueColorDecodes(f: Foreign, key: string, s: string, c: Packed)
    requires key in ColorProperties && !IsWebColor(s) && f.resolveColor(s) == Some(c)
    requires c & 0xff == 0xff
    ensures DecodeHex(NormalizedValue(f, key, Str(s)))
            == Some(((c >> 24) as int, ((c >> 16) & 0xff) as int, ((c >> 8) & 0xff) as int))
  {
    var ch := Channels(c);
    RgbToHexDecodes(ch.0, ch.1, ch.2);
  }

  /** A fully transparent colour renders as `rgba(r,g,b,0)`. */
  lemma TransparentColorText(f: Foreign, key: string, s: string, c: Packed)
    requires key in ColorProperties && !IsWebColor(s) && f.resolveColor(s) == Some(c)
    requires c & 0xff == 0
    ensures NormalizedValue(f, key, Str(s)) == "rgba(" + NatText((c >> 24) as int) + ","
              + NatText(((c >> 16) & 0xff) as int) + "," + NatText(((c >> 8) & 0xff) as int) + ",0)"
  {
  }

  /** Two spellings the resolver maps to the same colour normalise to the
      same text, whatever colour property they are given for. */
  lemma SameColorSameText(f: Foreign, k1: string, k2: string, a: string, b: string)
    requires k1 in ColorProperties && k2 in ColorProperties
    requires !IsWebColor(a) && !IsWebColor(b)
    requires f.resolveColor(a).Some? && f.resolveColor(a) == f.resolveColor(b)
    ensures NormalizedValue(f, k1, Str(a)) == NormalizedValue(f, k2, Str(b))
  {
  }

  /** The memo table of resolved colour strings (`normalizeValueCache`). */
  class ValueNormalizer {
    const f: Foreign
    var cache: map<string, string>

    /** Only resolved colour strings are cached, each under its canonical
        text. */
    ghost predicate Valid()
      reads this
    {
      forall s :: s in cache ==> f.resolveColor(s).Some? && cache[s] == ColorText(f, f.resolveColor(s).value)
    }

    constructor (f: Foreign)
      ensures Valid() && this.f == f && cache == map[]
    {
      this.f := f;
      cache := map[];
    }

    method NormalizeValue(key: string, value: Value) returns (r: string)
      requires Valid() && IsScalar(value)
      modifies this
      ensures Valid()
      ensures r == NormalizedValue(f, key, value)
      ensures cache == if value.Str? && key in ColorProperties && !IsWebColor(value.s)
                          && value.s !in old(cache) && f.resolveColor(value.s).Some?
                       then old(cache)[value.s := r] else old(cache)
    {
      match value {
        case Num(n) =>
          r := if key in UnitlessProperties then IntText(n) else IntText(n) + "px";
        case Str(s) =>
          if key in ColorProperties {
            if IsWebColor(s) {
              return s;
            }
            if s in cache {
              return cache[s];
            }
            var normalized := f.resolveColor(s);
            if normalized.Some? {
              cache := cache[s := ColorText(f, normalized.value)];
              return cache[s];
            }
          }
          r := s;
      }
    }
  }
}
