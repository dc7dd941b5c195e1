/** Colours from hexadecimal strings: the scanner's optional "#", the 64-bit hex scan, and the
    red, green and blue channels taken from the low three bytes; and the app's palette. */
module Color {
  import opened Wrappers

  const TwoTo64: nat := 0x1_0000_0000_0000_0000

  predicate IsHexDigit(c: char) {
    ('0' <= c <= '9') || ('a' <= c <= 'f') || ('A' <= c <= 'F')
  }

  function HexDigitValue(c: char): (v: nat)
    requires IsHexDigit(c)
    ensures v < 16
  {
    if '0' <= c <= '9' then c as nat - '0' as nat
    else if 'a' <= c <= 'f' then c as nat - 'a' as nat + 10
    else c as nat - 'A' as nat + 10
  }

  predicate AllHex(s: string) {
    forall k :: 0 <= k < |s| ==> IsHexDigit(s[k])
  }

  /** The number a string of hex digits denotes, most significant digit first. */
  function HexValue(s: string): (v: nat)
    requires AllHex(s)
  {
    if s == [] then 0 else HexValue(s[..|s| - 1]) * 16 + HexDigitValue(s[|s| - 1])
  }

  function Pow16(n: nat): (p: nat)
    ensures p >= 1
  {
    if n == 0 then 1 else 16 * Pow16(n - 1)
  }

  lemma AllHexAppend(a: string, b: string)
    requires AllHex(a) && AllHex(b)
    ensures AllHex(a + b)
  {
    forall k | 0 <= k < |a + b| ensures IsHexDigit((a + b)[k]) {
      if k < |a| { assert (a + b)[k] == a[k]; } else { assert (a + b)[k] == b[k - |a|]; }
    }
  }

  /** Digits written after others shift those by one hex place each. */
  lemma {:induction false} HexValueAppend(a: string, b: string)
    requires AllHex(a) && AllHex(b)
    ensures AllHex(a + b)
    ensures HexValue(a + b) == HexValue(a) * Pow16(|b|) + HexValue(b)
    decreases |b|
  {
    AllHexAppend(a, b);
    if b == [] {
      assert a + b == a;
    } else {
      var b' := b[..|b| - 1];
      assert (a + b)[..|a + b| - 1] == a + b';
      assert (a + b)[|a + b| - 1] == b[|b| - 1];
      HexValueAppend(a, b');
      ShiftDigit(HexValue(a + b), HexValue(a + b'), HexValue(a), Pow16(|b'|), HexValue(b'),
                 HexDigitValue(b[|b| - 1]), HexValue(b), Pow16(|b|));
    }
  }

  /** The arithmetic step of `HexValueAppend`, apart from the sequences. */
  lemma ShiftDigit(whole: int, init: int, x: int, p: int, y: int, d: int, last: int, shift: int)
    requires whole == init * 16 + d && init == x * p + y
    requires last == y * 16 + d && shift == p * 16
    ensures whole == x * shift + last
  {
  }

  lemma {:induction false} HexValueBound(s: string)
    requires AllHex(s)
    ensures HexValue(s) < Pow16(|s|)
    decreases |s|
  {
    if s != [] {
      HexValueBound(s[..|s| - 1]);
    }
  }

  /** The length of the run of hex digits at the start of `s`. */
  function HexRun(s: string): (n: nat)
    ensures n <= |s| && AllHex(s[..n])
    ensures n < |s| ==> !IsHexDigit(s[n])
  {
    if s == [] || !IsHexDigit(s[0]) then 0
    else
      var n := 1 + HexRun(s[1..]);
      assert s[..n] == [s[0]] + s[1..][..n - 1];
      n
  }

  /** `Scanner.scanHexInt64`: an optional "0x" or "0X" before the digits, the longest run of hex
      digits, and the largest 64-bit value when the digits overflow. No digits: the scan fails and
      the value stays 0. */
  function ScanHexInt64(s: string): (v: nat)
    ensures v < TwoTo64
  {
    var t := if |s| > 2 && s[0] == '0' && (s[1] == 'x' || s[1] == 'X') && IsHexDigit(s[2]) then s[2..] else s;
    var value := HexValue(t[..HexRun(t)]);
    if value < TwoTo64 then value else TwoTo64 - 1
  }

  /** `scanString("#")`: one leading "#" is consumed when present. */
  function SkipHash(hex: string): (r: string)
    ensures |hex| > 0 && hex[0] == '#' ==> r == hex[1..]
    ensures !(|hex| > 0 && hex[0] == '#') ==> r == hex
  {
    if |hex| > 0 && hex[0] == '#' then hex[1..] else hex
  }

  datatype Rgb = Rgb(red: nat, green: nat, blue: nat)

  /** `(v & 0xFF0000) >> 16`, `(v & 0x00FF00) >> 8` and `v & 0x0000FF`, written with division and
      remainder (the masks keep one byte each, the shifts bring it down). */
  function Channels(v: nat): (c: Rgb)
    ensures c.red < 256 && c.green < 256 && c.blue < 256
    ensures c.red * 65536 + c.green * 256 + c.blue == v % 16777216
  {
    ChannelsRecompose(v);
    Rgb((v / 65536) % 256, (v / 256) % 256, v % 256)
  }

  /** Division by 256, 65536 and 16777216 has one quotient and one remainder. */
  lemma DivModUnique(v: int, q: int, r: int, d: int)
    requires d == 256 || d == 65536 || d == 16777216
    requires 0 <= r < d && v == q * d + r
    ensures v / d == q && v % d == r
  {
    if d == 256 {
      assert v == q * 256 + r;
    } else if d == 65536 {
      assert v == q * 65536 + r;
    } else {
      assert v == q * 16777216 + r;
    }
  }

  lemma ChannelsRecompose(v: nat)
    ensures (v / 65536) % 256 * 65536 + (v / 256) % 256 * 256 + v % 256 == v % 16777216
  {
    var b0, v1 := v % 256, v / 256;
    var b1, v2 := v1 % 256, v1 / 256;
    var b2, v3 := v2 % 256, v2 / 256;
    assert v == v3 * 16777216 + (b2 * 65536 + b1 * 256 + b0);
    DivModUnique(v, v3, b2 * 65536 + b1 * 256 + b0, 16777216);
    DivModUnique(v, v3 * 256 + b2, b1 * 256 + b0, 65536);
    DivModUnique(v3 * 256 + b2, v3, b2, 256);
  }

  /** Three bytes put together come apart into the same three bytes. */
  lemma ChannelsOfBytes(r: nat, g: nat, b: nat)
    requires r < 256 && g < 256 && b < 256
    ensures Channels(r * 65536 + g * 256 + b) == Rgb(r, g, b)
  {
    var v := r * 65536 + g * 256 + b;
    DivModUnique(v, r, g * 256 + b, 65536);
    DivModUnique(v, r * 256 + g, b, 256);
    DivModUnique(r * 256 + g, r, g, 256);
  }

  /** The components `Color(red:green:blue:)` receives, each between 0 and 1. */
  datatype Components = Components(red: real, green: real, blue: real)

  /** `Color.init(hex:)`. */
  function FromHex(hex: string): (c: Components)
    ensures var ch := Channels(ScanHexInt64(SkipHash(hex)));
      c == Components(ch.red as real / 255.0, ch.green as real / 255.0, ch.blue as real / 255.0)
    ensures 0.0 <= c.red <= 1.0 && 0.0 <= c.green <= 1.0 && 0.0 <= c.blue <= 1.0
  {
    var ch := Channels(ScanHexInt64(SkipHash(hex)));
    Components(ch.red as real / 255.0, ch.green as real / 255.0, ch.blue as real / 255.0)
  }

  /** A string whose first character (after an optional "#") is not a hex digit scans to black. */
  lemma NoDigitsIsBlack(hex: string)
    requires var s := SkipHash(hex); s == [] || !IsHexDigit(s[0])
    ensures FromHex(hex) == Components(0.0, 0.0, 0.0)
  {
    var s := SkipHash(hex);
    assert s[..HexRun(s)] == [];
  }

  /** One leading "#" makes no difference. */
  lemma HashIsOptional(hex: string)
    requires hex == [] || hex[0] != '#'
    ensures FromHex("#" + hex) == FromHex(hex)
  {
    assert ("#" + hex)[1..] == hex;
  }

  /** A string of hex digits that is not too long scans to the number it denotes. */
  lemma ScanAllDigits(s: string)
    requires 0 < |s| <= 16 && AllHex(s)
    ensures ScanHexInt64(s) == HexValue(s)
  {
    assert !(|s| > 2 && s[0] == '0' && (s[1] == 'x' || s[1] == 'X')) by {
      if |s| > 2 { assert IsHexDigit(s[1]); }
    }
    var n := HexRun(s);
    assert n == |s|;
    assert s[..n] == s;
    HexValueBound(s);
    PowUpTo16(|s|);
  }

  /** A string of hex digits, with no prefix to read, scans to its value, or to the largest
      64-bit value when that value does not fit. */
  lemma ScanAllHex(h: string)
    requires AllHex(h)
    ensures HexValue(h) < TwoTo64 ==> ScanHexInt64(h) == HexValue(h)
    ensures HexValue(h) >= TwoTo64 ==> ScanHexInt64(h) == TwoTo64 - 1
  {
    assert !(|h| > 2 && h[0] == '0' && (h[1] == 'x' || h[1] == 'X')) by {
      if |h| > 2 { assert IsHexDigit(h[1]); }
    }
    assert HexRun(h) == |h|;
    assert h[..|h|] == h;
  }

  /** The scan stops at the first character that is not a hex digit: what follows is ignored. */
  lemma ScanStopsAtNonHex(a: string, c: char, b: string)
    requires a != [] && AllHex(a) && !IsHexDigit(c)
    requires !(a == "0" && (c == 'x' || c == 'X'))
    ensures ScanHexInt64(a + [c] + b) == ScanHexInt64(a)
  {
    var s := a + [c] + b;
    if |a| >= 2 {
      assert s[1] == a[1];
    } else {
      assert a == [a[0]] && s[1] == c;
    }
    assert !IsHexDigit(s[|a|]);
    forall k | 0 <= k < |a| ensures IsHexDigit(s[k]) {
      assert s[k] == a[k];
    }
    var n := HexRun(s);
    assert n == |a|;
    assert s[..n] == a;
    ScanAllHex(a);
  }

  /** A "0x" or "0X" in front of hex digits is read as a prefix: the scan takes the digits after it. */
  lemma ScanSkipsPrefix(d: string)
    requires d != [] && IsHexDigit(d[0])
    ensures ScanHexInt64("0x" + d) == ScanHexInt64(d[..HexRun(d)])
    ensures ScanHexInt64("0X" + d) == ScanHexInt64(d[..HexRun(d)])
  {
    assert ("0x" + d)[2..] == d;
    assert ("0X" + d)[2..] == d;
    ScanAllHex(d[..HexRun(d)]);
  }

  lemma {:induction false} Pow16Mono(n: nat, m: nat)
    requires n <= m
    ensures Pow16(n) <= Pow16(m)
    decreases m - n
  {
    if n < m {
      Pow16Mono(n, m - 1);
    }
  }

  lemma PowUpTo16(n: nat)
    requires n <= 16
    ensures Pow16(n) <= TwoTo64
  {
    Pow16Mono(n, 16);
    Pow16Sixteen();
  }

  lemma Pow16Sixteen()
    ensures Pow16(16) == TwoTo64
  {
    assert Pow16(4) == 65536 by {
      assert Pow16(1) == 16 && Pow16(2) == 256 && Pow16(3) == 4096;
    }
    assert Pow16(8) == 0x1_0000_0000 by {
      assert Pow16(5) == 0x10_0000 && Pow16(6) == 0x100_0000 && Pow16(7) == 0x1000_0000;
    }
    assert Pow16(12) == 0x1_0000_0000_0000 by {
      assert Pow16(9) == 0x10_0000_0000 && Pow16(10) == 0x100_0000_0000 && Pow16(11) == 0x1000_0000_0000;
    }
    assert Pow16(13) == 0x10_0000_0000_0000 && Pow16(14) == 0x100_0000_0000_0000;
    assert Pow16(15) == 0x1000_0000_0000_0000;
  }

  /** Six hex digits denote the three bytes their digit pairs denote. */
  lemma SixDigitBytes(s: string)
    requires |s| == 6 && AllHex(s)
    ensures AllHex(s[..2]) && AllHex(s[2..4]) && AllHex(s[4..])
    ensures HexValue(s[..2]) < 256 && HexValue(s[2..4]) < 256 && HexValue(s[4..]) < 256
    ensures HexValue(s) == HexValue(s[..2]) * 65536 + HexValue(s[2..4]) * 256 + HexValue(s[4..])
  {
    var a, b, c := s[..2], s[2..4], s[4..];
    assert AllHex(a) && AllHex(b) && AllHex(c);
    assert s == (a + b) + c;
    assert Pow16(2) == 256;
    HexValueAppend(a, b);
    HexValueAppend(a + b, c);
    HexValueBound(a);
    HexValueBound(b);
    HexValueBound(c);
    ThreeBytes(HexValue(s), HexValue(a + b), HexValue(a), HexValue(b), HexValue(c), Pow16(2));
  }

  /** The arithmetic step of `SixDigitBytes`. */
  lemma ThreeBytes(whole: int, ab: int, x: int, y: int, z: int, p: int)
    requires p == 256 && ab == x * p + y && whole == ab * p + z
    ensures whole == x * 65536 + y * 256 + z
  {
  }

  /** Six hex digits give the colour whose channels are the digit pairs. */
  lemma SixDigits(s: string)
    requires |s| == 6 && AllHex(s)
    ensures AllHex(s[..2]) && AllHex(s[2..4]) && AllHex(s[4..])
    ensures Channels(ScanHexInt64(s)) == Rgb(HexValue(s[..2]), HexValue(s[2..4]), HexValue(s[4..]))
  {
    SixDigitBytes(s);
    ScanAllDigits(s);
    var r, g, b := HexValue(s[..2]), HexValue(s[2..4]), HexValue(s[4..]);
    assert ScanHexInt64(s) == r * 65536 + g * 256 + b;
    ChannelsOfBytes(r, g, b);
  }

  /** `CustomPalette`. */
  datatype Palette = Black | Cream | DarkGray | DarkBrown | Brown | LightBrown | LightGray | Golden
                   | Blue | DarkBlue | Page | Hebcal

  function PaletteRaw(p: Palette): (raw: string)
    ensures |raw| == 6 && AllHex(raw)
  {
    match p
    case Black => "25343B"
    case Cream => "E0DCCD"
    case DarkGray => "6B7F7F"
    case DarkBrown => "594A3A"
    case Brown => "7D674B"
    case LightBrown => "97856D"
    case LightGray => "9EAAA5"
    case Golden => "B09C7B"
    case Blue => "419EAE"
    case DarkBlue => "08344c"
    case Page => "fcf8e8"
    case Hebcal => "f8f7f6"
  }

  /** `CustomPalette.color`: each palette colour's channels are the three digit pairs of its raw value. */
  lemma PaletteChannels(p: Palette)
    ensures var raw := PaletteRaw(p);
      AllHex(raw[..2]) && AllHex(raw[2..4]) && AllHex(raw[4..]) &&
      FromHex(raw) == Components(HexValue(raw[..2]) as real / 255.0, HexValue(raw[2..4]) as real / 255.0,
                                 HexValue(raw[4..]) as real / 255.0)
  {
    var raw := PaletteRaw(p);
    assert SkipHash(raw) == raw;
    SixDigits(raw);
  }
}
