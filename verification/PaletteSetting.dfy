// The theme setting: its colour fields, how a selection is written into it, and how one is
// recognised in it.
module PaletteSetting {
  import opened Strings
  import opened Wrappers

  datatype Key =
    | Palette | Accent | Source | Style | DynamicColor | ColorIndex | ColorBoth | Timestamp
    | Other(name: string)

  datatype Json = Text(text: string) | Number(number: int) | Compound(raw: string)

  type Setting = map<Key, Json>

  const COLOR_KEYS: set<Key> := {Palette, Accent, Source, Style, DynamicColor, ColorIndex, ColorBoth, Timestamp}

  datatype Selection = Wallpaper | Custom(seed: nat, style: nat)

  datatype Error = Unsupported | InvalidChoice | InvalidSettings | Unavailable | Conflict | Readback | RestoreFailed

  const STYLES: seq<string> :=
    ["TONAL_SPOT", "VIBRANT", "EXPRESSIVE", "SPRITZ", "RAINBOW", "FRUIT_SALAD", "MONOCHROMATIC"]

  function Validate(selection: Selection, sdk: int): Option<Error> {
    match selection
    case Wallpaper => None
    case Custom(seed, style) =>
      if seed > 0xff_ffff || style >= |STYLES| then Some(InvalidChoice)
      else if (sdk < 33 && style != 0) || (sdk < 34 && style == 6) then Some(Unsupported)
      else None
  }

  // ---------- colours as text ----------

  function HexDigit(n: nat): char
    requires n < 16
  {
    if n < 10 then ('0' as int + n) as char else ('A' as int + n - 10) as char
  }

  /** At least `width` upper-case hexadecimal digits. */
  function Hex(n: nat, width: nat): string
    decreases width, n
  {
    if width == 0 then (if n == 0 then [] else Hex(n / 16, 0) + [HexDigit(n % 16)])
    else Hex(n / 16, width - 1) + [HexDigit(n % 16)]
  }

  function HexValue(c: char): Option<nat> {
    if '0' <= c <= '9' then Some(c as int - '0' as int)
    else if 'A' <= c <= 'F' then Some(c as int - 'A' as int + 10)
    else if 'a' <= c <= 'f' then Some(c as int - 'a' as int + 10)
    else None
  }

  function ParseHex(s: string): Option<nat> {
    if s == [] then Some(0)
    else
      match (ParseHex(s[..|s| - 1]), HexValue(s[|s| - 1]))
      case (Some(high), Some(low)) => Some(16 * high + low)
      case _ => None
  }

  function Strip(s: string, prefix: string): string {
    if prefix <= s then s[|prefix|..] else s
  }

  function ParseRgb(raw: string): Option<nat> {
    var digits := Strip(Strip(Trim(raw), "#"), "0x");
    if |digits| != 6 && |digits| != 8 then None
    else
      match ParseHex(digits)
      case None => None
      case Some(value) => if |digits| == 8 && value / 0x100_0000 != 0xff then None else Some(value % 0x100_0000)
  }

  lemma HexRoundTrip(n: nat, width: nat)
    requires n < Pow16(width)
    ensures |Hex(n, width)| == width
    ensures ParseHex(Hex(n, width)) == Some(n)
    ensures forall i :: 0 <= i < width ==> HexValue(Hex(n, width)[i]).Some?
  {
    if width > 0 {
      HexRoundTrip(n / 16, width - 1);
    }
  }

  function Pow16(width: nat): nat {
    if width == 0 then 1 else 16 * Pow16(width - 1)
  }

  lemma HexIsClean(s: string)
    requires |s| == 6 && forall i :: 0 <= i < 6 ==> HexValue(s[i]).Some?
    ensures Strip(Strip(Trim(s), "#"), "0x") == s
  {
    assert HexValue(s[0]).Some? && HexValue(s[1]).Some? && HexValue(s[5]).Some?;
    assert !IsWhite(s[0]) && !IsWhite(s[5]);
    assert TrimStart(s) == s && TrimEnd(s) == s;
  }

  lemma SixDigits()
    ensures Pow16(6) == 0x100_0000
  {
    assert Pow16(3) == 4096;
  }

  /** A six-digit colour is read back as the colour it prints. */
  lemma RgbRoundTrip(seed: nat)
    requires seed <= 0xff_ffff
    ensures ParseRgb(Hex(seed, 6)) == Some(seed)
  {
    hide Hex, ParseHex, Strip, Trim, Pow16, HexValue;
    SixDigits();
    HexRoundTrip(seed, 6);
    HexIsClean(Hex(seed, 6));
    assert seed % 0x100_0000 == seed;
  }

  /** Hexadecimal digits are read in either case. */
  lemma DigitCases(n: nat)
    requires n < 16
    ensures HexValue("0123456789ABCDEF"[n]) == Some(n) && HexValue("0123456789abcdef"[n]) == Some(n)
  {
  }

  predicate AllHex(s: string) {
    forall i :: 0 <= i < |s| ==> HexValue(s[i]).Some?
  }

  lemma {:induction false} HexReads(s: string)
    requires AllHex(s)
    ensures ParseHex(s).Some? && ParseHex(s).value < Pow16(|s|)
  {
    if s != [] { HexReads(s[..|s| - 1]); }
  }

  lemma {:induction false} HexJoins(a: string, d: string)
    requires AllHex(a) && AllHex(d)
    ensures AllHex(a + d)
    ensures ParseHex(a).Some? && ParseHex(d).Some? && ParseHex(a + d) == Some(ParseHex(a).value * Pow16(|d|) + ParseHex(d).value)
  {
    HexReads(a);
    HexReads(d);
    if d == [] {
      assert a + d == a;
    } else {
      var front := d[..|d| - 1];
      assert (a + d)[..|a + d| - 1] == a + front && (a + d)[|a + d| - 1] == d[|d| - 1];
      HexJoins(a, front);
      Sixteenfold(ParseHex(a).value, Pow16(|front|));
    }
  }

  lemma Sixteenfold(x: nat, p: nat)
    ensures 16 * (x * p) == x * (16 * p)
  {
  }

  /** Nothing is trimmed or stripped from hexadecimal digits, and one prefix is. */
  lemma HexStripped(s: string)
    requires AllHex(s)
    ensures Strip(Strip(Trim(s), "#"), "0x") == s
    ensures s != [] ==> Strip(Strip(Trim("#" + s), "#"), "0x") == s && Strip(Strip(Trim("0x" + s), "#"), "0x") == s
  {
    if s != [] {
      assert !IsWhite(s[0]) && !IsWhite(s[|s| - 1]);
      assert |s| > 1 ==> HexValue(s[1]).Some?;
      TrimClean(s);
      TrimClean("#" + s);
      TrimClean("0x" + s);
      assert ("#" + s)[1..] == s && ("0x" + s)[2..] == s;
    }
  }

  lemma TrimClean(s: string)
    requires s != [] && !IsWhite(s[0]) && !IsWhite(s[|s| - 1])
    ensures Trim(s) == s
  {
  }

  /**
   * Which hexadecimal texts are colours: six digits, or eight of which the first two are a full
   * alpha; after a number sign, a zero-x or neither.
   */
  lemma RgbExactly(s: string)
    requires AllHex(s) && s != []
    ensures ParseRgb(s) == ParseRgb("#" + s) == ParseRgb("0x" + s)
    ensures |s| == 6 ==> ParseRgb(s) == ParseHex(s) != None
    ensures |s| == 8 ==> ParseRgb(s) == if ParseHex(s[..2]) == Some(0xff) then ParseHex(s[2..]) else None
    ensures |s| != 6 && |s| != 8 ==> ParseRgb(s) == None
  {
    hide ParseRgb, ParseHex, Strip, Trim, Pow16, AllHex;
    HexReads(s);
    HexStripped(s);
    DigitsDecide(s, s);
    DigitsDecide("#" + s, s);
    DigitsDecide("0x" + s, s);
    SixDigits();
    if |s| == 8 {
      var a, d := s[..2], s[2..];
      assert s == a + d;
      PartsAreHex(s);
      HexJoins(a, d);
      HexReads(d);
      Alpha(ParseHex(a).value, ParseHex(d).value, ParseHex(s).value);
    }
  }

  lemma PartsAreHex(s: string)
    requires AllHex(s) && |s| >= 2
    ensures AllHex(s[..2]) && AllHex(s[2..])
  {
  }

  lemma DigitsDecide(raw: string, s: string)
    requires Strip(Strip(Trim(raw), "#"), "0x") == s && ParseHex(s).Some?
    ensures var v := ParseHex(s).value;
      ParseRgb(raw) == if |s| == 6 || (|s| == 8 && v / 0x100_0000 == 0xff) then Some(v % 0x100_0000) else None
  {
    hide Strip, Trim, ParseHex;
  }

  lemma Alpha(a: nat, d: nat, v: nat)
    requires d < 0x100_0000 && v == a * 0x100_0000 + d
    ensures v / 0x100_0000 == a && v % 0x100_0000 == d
  {
  }

  // ---------- selections ----------

  function NextSetting(original: Setting, selection: Selection, sdk: int, timestamp: int): Setting
    requires Validate(selection, sdk) == None
  {
    var bare := original - COLOR_KEYS;
    var chosen :=
      match selection
      case Custom(seed, style) =>
        var text := Text(Hex(seed, 6));
        if sdk < 33 then bare[Palette := text][Source := Text("preset")][Accent := text]
        else bare[Palette := text][Source := Text("preset")][Style := Text(STYLES[style])]
      case Wallpaper =>
        var b := bare[Source := Text("home_wallpaper")];
        if sdk >= 33 then b[Style := Text("TONAL_SPOT")] else b;
    chosen[Timestamp := Number(timestamp)]
  }

  function Get(m: Setting, k: Key): Option<Json> {
    if k in m then Some(m[k]) else None
  }

  predicate SameColors(a: Setting, b: Setting) {
    forall k :: k in COLOR_KEYS && k != Timestamp ==> Get(a, k) == Get(b, k)
  }

  function TextOf(m: Setting, k: Key): Option<string> {
    if k in m && m[k].Text? then Some(m[k].text) else None
  }

  predicate SelectionMatches(m: Setting, selection: Selection, sdk: int)
    requires selection.Custom? ==> selection.style < |STYLES|
  {
    match selection
    case Wallpaper => TextOf(m, Source) == Some("home_wallpaper") || TextOf(m, Source) == Some("lock_wallpaper")
    case Custom(seed, style) =>
      && TextOf(m, Palette).Some? && ParseRgb(TextOf(m, Palette).value) == Some(seed)
      && TextOf(m, Source) == Some("preset")
      && (sdk < 33 || TextOf(m, Style) == Some(STYLES[style]))
  }

  /** The two settings differ in colour fields only. */
  ghost predicate SameRest(a: Setting, b: Setting) {
    forall k :: k !in COLOR_KEYS ==> Get(a, k) == Get(b, k)
  }

  /** A selection touches nothing but the colour fields. */
  lemma NextKeepsRest(original: Setting, selection: Selection, sdk: int, timestamp: int)
    requires Validate(selection, sdk) == None
    ensures SameRest(original, NextSetting(original, selection, sdk, timestamp))
  {
  }

  /** Recognising a selection looks at nothing but the colour fields. */
  lemma MatchesByColors(a: Setting, b: Setting, selection: Selection, sdk: int)
    requires selection.Custom? ==> selection.style < |STYLES|
    requires SameColors(a, b)
    ensures SelectionMatches(a, selection, sdk) == SelectionMatches(b, selection, sdk)
  {
    hide ParseRgb;
    assert Get(a, Palette) == Get(b, Palette) && Get(a, Source) == Get(b, Source) && Get(a, Style) == Get(b, Style);
    assert TextOf(a, Palette) == TextOf(b, Palette) && TextOf(a, Source) == TextOf(b, Source) && TextOf(a, Style) == TextOf(b, Style);
  }

  /** Every accepted selection is recognised in what it writes, and in any setting with its colours. */
  lemma SelectionRecognised(original: Setting, current: Setting, selection: Selection, sdk: int, timestamp: int)
    requires Validate(selection, sdk) == None
    requires SameColors(current, NextSetting(original, selection, sdk, timestamp))
    ensures SelectionMatches(current, selection, sdk)
  {
    var next := NextSetting(original, selection, sdk, timestamp);
    if selection.Custom? { RgbRoundTrip(selection.seed); }
    hide ParseRgb, Hex;
    assert SelectionMatches(next, selection, sdk);
    MatchesByColors(current, next, selection, sdk);
  }
}
