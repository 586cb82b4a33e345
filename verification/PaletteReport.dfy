// What the palette transaction tells its caller, and when it succeeds.
module PaletteReport {
  import opened PaletteSetting
  import opened PaletteTransaction
  import opened Strings
  import W = PaletteWire
  import opened Wrappers

  // ---------- what a selection writes ----------

  /** Which selections are accepted: any colour and style Android offers in its version. */
  lemma AcceptedExactly(selection: Selection, sdk: int)
    ensures Validate(selection, sdk).None? <==>
      selection.Custom? ==>
        && selection.seed < 0x100_0000 && selection.style < 7
        && (selection.style == 0 || sdk >= 34 || (sdk == 33 && selection.style != 6))
    ensures Validate(selection, sdk) == Some(InvalidChoice) <==> selection.Custom? && (selection.seed >= 0x100_0000 || selection.style >= 7)
  {
  }

  /**
   * What is stored for a custom palette: the colour as text that reads back as it, a preset, and
   * either the style or, before Android 13, the same colour once more as the accent; nothing is
   * left of any colour choice made before.
   */
  lemma CustomWrites(original: Setting, seed: nat, style: nat, sdk: int, now: int)
    requires Validate(Custom(seed, style), sdk).None?
    ensures var n := NextSetting(original, Custom(seed, style), sdk, now);
      && TextOf(n, Palette).Some? && ParseRgb(TextOf(n, Palette).value) == Some(seed)
      && TextOf(n, Source) == Some("preset")
      && Get(n, Timestamp) == Some(Number(now))
      && Get(n, DynamicColor) == Get(n, ColorIndex) == Get(n, ColorBoth) == None
      && (sdk < 33 ==> TextOf(n, Accent) == TextOf(n, Palette) && Get(n, Style) == None)
      && (sdk >= 33 ==> TextOf(n, Style) == Some(STYLES[style]) && Get(n, Accent) == None)
  {
    hide Hex, ParseRgb;
    RgbRoundTrip(seed);
    var bare, text := original - COLOR_KEYS, Text(Hex(seed, 6));
    var n := NextSetting(original, Custom(seed, style), sdk, now);
    if sdk < 33 {
      assert n == bare[Palette := text][Source := Text("preset")][Accent := text][Timestamp := Number(now)];
    } else {
      assert n == bare[Palette := text][Source := Text("preset")][Style := Text(STYLES[style])][Timestamp := Number(now)];
    }
  }

  /** What is stored for the wallpaper: its source, on Android 13 the default style, and no colour. */
  lemma WallpaperWrites(original: Setting, sdk: int, now: int)
    ensures var n := NextSetting(original, Wallpaper, sdk, now);
      && TextOf(n, Source) == Some("home_wallpaper")
      && Get(n, Timestamp) == Some(Number(now))
      && Get(n, Palette) == Get(n, Accent) == Get(n, DynamicColor) == Get(n, ColorIndex) == Get(n, ColorBoth) == None
      && Get(n, Style) == (if sdk >= 33 then Some(Text("TONAL_SPOT")) else None)
  {
  }

  // ---------- what is reported ----------

  lemma StylePlaces(i: nat)
    requires i < |STYLES|
    ensures Position(STYLES[i], STYLES) == i
  {
    var a, b, c, d, e, f, g := "TONAL_SPOT", "VIBRANT", "EXPRESSIVE", "SPRITZ", "RAINBOW", "FRUIT_SALAD", "MONOCHROMATIC";
    assert STYLES == [a, b, c, d, e, f, g];
    assert STYLES[1..] == [b, c, d, e, f, g] && STYLES[1..][1..] == [c, d, e, f, g];
    assert |a| == 10 && |b| == 7 && |c| == 10 && |d| == 6 && |e| == 7 && |f| == 11 && |g| == 13;
    assert a[0] == 'T' && c[0] == 'E' && b[0] == 'V' && e[0] == 'R';
    PlaceOf(STYLES, i);
  }

  lemma {:induction false} PlaceOf(names: seq<string>, i: nat)
    requires i < |names| && forall j, k :: 0 <= j < k < |names| ==> names[j] != names[k]
    ensures Position(names[i], names) == i
  {
    if i > 0 {
      assert names[1..][i - 1] == names[i];
      PlaceOf(names[1..], i - 1);
    }
  }

  /** A setting that shows a custom selection is described as that selection. */
  lemma CustomDescribed(env: Environment, m: Setting, seed: nat, style: nat, colors: Colors, outcome: int)
    requires style < |STYLES| && SelectionMatches(m, Custom(seed, style), env.sdk)
    ensures var s := Describe(env, m, colors, outcome);
      && s.env == env && s.mode == 1 && s.seed == seed && s.colors == colors && s.outcome == outcome
      && (env.sdk >= 33 ==> s.style == style)
      && (TextOf(m, Style).None? ==> s.style == 0)
  {
    StylePlaces(style);
    hide ParseRgb, Position;
  }

  lemma WallpaperDescribed(env: Environment, m: Setting, colors: Colors, outcome: int)
    requires SelectionMatches(m, Wallpaper, env.sdk)
    ensures var s := Describe(env, m, colors, outcome);
      s.env == env && s.mode == 0 && s.colors == colors && s.outcome == outcome
  {
    hide ParseRgb, Position;
  }

  /** What any setting is described as: its source decides first, then its colour, then a preset without one. */
  lemma DescribedAsShown(env: Environment, m: Setting, colors: Colors, outcome: int)
    ensures var s := Describe(env, m, colors, outcome);
      var source, palette := TextOf(m, Source), TextOf(m, Palette);
      var wallpaper, colored := source in {Some("home_wallpaper"), Some("lock_wallpaper")}, palette.Some? && ParseRgb(palette.value).Some?;
      && s.env == env && s.colors == colors && s.outcome == outcome
      && (s.mode == 1 <==> colored && !wallpaper)
      && (s.mode == 2 <==> !colored && source == Some("preset"))
      && (s.mode == 0 <==> wallpaper || (!colored && source != Some("preset")))
      && (if colored then ParseRgb(palette.value) == Some(s.seed) else s.seed == -1)
      && (TextOf(m, Style).None? ==> s.style == 0)
      && (TextOf(m, Style).Some? ==> if 0 <= s.style < |STYLES| then TextOf(m, Style).value == STYLES[s.style]
                                     else s.style == -1 && TextOf(m, Style).value !in STYLES)
  {
    if TextOf(m, Style).Some? { PositionIs(TextOf(m, Style).value, STYLES); }
    hide ParseRgb, Position;
    assert "preset"[0] == 'p' && "home_wallpaper"[0] == 'h' && "lock_wallpaper"[0] == 'l';
  }

  lemma {:induction false} PositionIs(s: string, names: seq<string>)
    ensures var i := Position(s, names); if 0 <= i < |names| then names[i] == s else i == -1 && s !in names
  {
    if names != [] { PositionIs(s, names[1..]); }
  }

  lemma RgbBound(raw: string)
    ensures ParseRgb(raw).Some? ==> ParseRgb(raw).value < 0x100_0000
  {
    hide ParseHex, Strip;
  }

  lemma DescribedInRange(env: Environment, m: Setting, colors: Colors, outcome: int)
    ensures var s := Describe(env, m, colors, outcome); 0 <= s.mode <= 2 && -1 <= s.seed <= 0xff_ffff && -1 <= s.style <= 6
  {
    var palette := TextOf(m, Palette);
    DescribedAsShown(env, m, colors, outcome);
    if palette.Some? { RgbBound(palette.value); }
    hide ParseRgb, Describe;
  }

  /** The setting shows the selection already: either wallpaper source, or the same preset colour and style. */
  predicate InForce(m: Setting, selection: Selection, sdk: int) {
    match selection
    case Wallpaper => TextOf(m, Source) in {Some("home_wallpaper"), Some("lock_wallpaper")}
    case Custom(seed, style) =>
      && TextOf(m, Source) == Some("preset")
      && TextOf(m, Palette).Some? && ParseRgb(TextOf(m, Palette).value) == Some(seed)
      && (sdk >= 33 ==> TextOf(m, Style).Some? && Position(TextOf(m, Style).value, STYLES) == style)
  }

  lemma MatchesExactly(m: Setting, selection: Selection, sdk: int)
    requires Validate(selection, sdk).None?
    ensures SelectionMatches(m, selection, sdk) <==> InForce(m, selection, sdk)
  {
    if selection.Custom? {
      StylePlaces(selection.style);
      if TextOf(m, Style).Some? { PositionIs(TextOf(m, Style).value, STYLES); }
    }
    hide ParseRgb, Position;
  }

  /** The reported state is what was asked for. */
  ghost predicate Reports(s: PaletteState, env: Environment, selection: Selection, wrote: bool) {
    && s.env == env && 0 <= s.mode <= 2 && -1 <= s.seed <= 0xff_ffff && -1 <= s.style <= 6
    && (selection.Wallpaper? ==> s.mode == 0)
    && (selection.Custom? ==> s.mode == 1 && s.seed == selection.seed)
    && (selection.Custom? && (wrote || env.sdk >= 33) ==> s.style == selection.style)
  }

  /**
   * What the outcome code says: zero, nothing had to be written, and the colours are those sampled;
   * one, the write changed the colours from those sampled before it; two, it did not.
   */
  ghost predicate OutcomeTold(s: PaletteState, io: Io, n: Io) {
    && |n.samples| >= |io.samples| + 2 && n.samples[|io.samples|] == n.samples[|io.samples| + 1]
    && (s.outcome == 0 <==> n.writes == io.writes)
    && (n.writes == io.writes ==> s.colors == n.samples[|io.samples| + 1])
    && (n.writes != io.writes ==> s.outcome == if s.colors != n.samples[|io.samples| + 1] then 1 else 2)
  }

  lemma {:induction false} SettleExtends(waits: nat, io: Io, selection: Selection, before: Colors, actual: Colors,
                                         previous: Option<Colors>, settled: bool)
    ensures io.samples <= Settle(waits, io, selection, before, actual, previous, settled).0.samples
  {
    if waits > 0 {
      var p := Pause(io);
      var (n, c) := Sample(p);
      assert p.samples == io.samples && p.samples <= n.samples;
      if c.Ok? {
        SettleExtends(waits - 1, n, selection, before, c.value, Some(c.value), previous == Some(c.value));
      }
    }
  }

  lemma SettledBeforeSamples(io: Io)
    ensures var (n, c) := SettledBefore(io);
      c.Ok? ==> n.samples == io.samples + [c.value, c.value]
  {
  }

  lemma ReadSamples(io: Io)
    ensures Read(io).0.samples == io.samples && Read(io).0.writes == io.writes
  {
  }

  /** A successful attempt describes a setting with the attempted colours. */
  lemma AttemptReports(io: Io, env: Environment, selection: Selection, before: Colors, next: Setting)
    ensures var (n, r) := Attempt(io, env, selection, before, next);
      && (r.Ok? ==>
            && io.samples <= n.samples && Decode(n.stored).Ok? && SameColors(Decode(n.stored).value, next)
            && r.value == Describe(env, Decode(n.stored).value, r.value.colors, if r.value.colors != before then 1 else 2))
  {
    hide Settle, SameColors, Put, Read, Describe, Decode, After, PickedIn;
    PutFacts(io, next);
    var (a, written) := Put(io, next);
    if written {
      ReadFacts(a);
      var (b, saved) := Read(a);
      if saved.Ok? && SameColors(saved.value, next) {
        SettleExtends(8, b, selection, before, before, None, false);
        var (c, seen) := Settle(8, b, selection, before, before, None, false);
        ReadFacts(c);
        var (d, current) := Read(c);
        if seen.Ok? && current.Ok? {
          DescribesColors(env, current.value, seen.value.0, if seen.value.0 != before then 1 else 2);
        }
      }
    }
  }

  lemma SameStyle(m: Setting, next: Setting)
    requires SameColors(m, next)
    ensures TextOf(m, Style) == TextOf(next, Style)
  {
    assert Get(m, Style) == Get(next, Style);
  }

  /** What is described after a write of `selection`. */
  lemma WrittenReports(env: Environment, m: Setting, original: Setting, selection: Selection, now: int, colors: Colors, outcome: int)
    requires Validate(selection, env.sdk).None? && SameColors(m, NextSetting(original, selection, env.sdk, now))
    ensures Reports(Describe(env, m, colors, outcome), env, selection, true)
    ensures Describe(env, m, colors, outcome).colors == colors && Describe(env, m, colors, outcome).outcome == outcome
  {
    var next := NextSetting(original, selection, env.sdk, now);
    SelectionRecognised(original, m, selection, env.sdk, now);
    SameStyle(m, next);
    DescribedInRange(env, m, colors, outcome);
    match selection
    case Wallpaper => WallpaperDescribed(env, m, colors, outcome);
    case Custom(seed, style) =>
      CustomWrites(original, seed, style, env.sdk, now);
      CustomDescribed(env, m, seed, style, colors, outcome);
      hide Describe, NextSetting, SameColors, SelectionMatches, ParseRgb;
      assert env.sdk < 33 ==> TextOf(next, Style).None?;
  }

  /** What is described when the selection is already in force. */
  lemma MatchedReports(env: Environment, m: Setting, selection: Selection, colors: Colors, outcome: int)
    requires Validate(selection, env.sdk).None? && SelectionMatches(m, selection, env.sdk)
    ensures Reports(Describe(env, m, colors, outcome), env, selection, false)
    ensures Describe(env, m, colors, outcome).colors == colors && Describe(env, m, colors, outcome).outcome == outcome
  {
    DescribedInRange(env, m, colors, outcome);
    match selection
    case Wallpaper => WallpaperDescribed(env, m, colors, outcome);
    case Custom(seed, style) => CustomDescribed(env, m, seed, style, colors, outcome);
      hide Describe, SelectionMatches;
  }

  /**
   * A transaction that succeeds reports the selection it was asked for: a custom palette with its
   * colour, and its style once it was written or on Android 13; the wallpaper as such; and the
   * outcome code tells whether anything was written and whether that changed the native colours.
   */
  lemma ApplyToReports(io: Io, env: Environment, selection: Selection, now: int)
    ensures var (n, r) := ApplyTo(io, env, selection, now);
      r.Ok? ==> Reports(r.value, env, selection, n.writes != io.writes) && OutcomeTold(r.value, io, n)
  {
    hide Read, SettledBefore, Attempt, Rollback, SameColors, SelectionMatches, NextSetting, Describe, Reports, Decode, PickedIn, After;
    if Validate(selection, env.sdk).None? && env.supported {
      ReadSamples(io);
      var (a, original) := Read(io);
      if original.Ok? {
        SettledBeforeSamples(a);
        SettledBeforeQuiet(a);
        var (b, before) := SettledBefore(a);
        if before.Ok? {
          if SelectionMatches(original.value, selection, env.sdk) {
            MatchedReports(env, original.value, selection, before.value, 0);
          } else {
            NeverAlready(original.value, selection, env.sdk, now);
            ReadSamples(b);
            var (c, again) := Read(b);
            if again.Ok? && again.value == original.value {
              AttemptTold(c, env, selection, before.value, original.value, now);
            }
          }
        }
      }
    }
  }

  lemma NeverAlready(m: Setting, selection: Selection, sdk: int, now: int)
    requires Validate(selection, sdk).None? && !SelectionMatches(m, selection, sdk)
    ensures !SameColors(m, NextSetting(m, selection, sdk, now))
  {
    if SameColors(m, NextSetting(m, selection, sdk, now)) {
      SelectionRecognised(m, m, selection, sdk, now);
    }
  }

  lemma AttemptTold(io: Io, env: Environment, selection: Selection, before: Colors, original: Setting, now: int)
    requires Validate(selection, env.sdk).None?
    ensures var (n, r) := Attempt(io, env, selection, before, NextSetting(original, selection, env.sdk, now));
      r.Ok? ==>
        && io.samples <= n.samples && n.writes != io.writes && Reports(r.value, env, selection, true)
        && r.value.outcome == if r.value.colors != before then 1 else 2
  {
    hide Attempt, NextSetting, SameColors, Describe, Reports, Decode, After;
    var next := NextSetting(original, selection, env.sdk, now);
    AttemptReports(io, env, selection, before, next);
    AttemptEffect(io, env, selection, before, next);
    var (n, r) := Attempt(io, env, selection, before, next);
    if r.Ok? {
      WrittenReports(env, Decode(n.stored).value, original, selection, now, r.value.colors, if r.value.colors != before then 1 else 2);
    }
  }

  predicate IsColors(c: Colors) {
    c.primary <= 0xff_ffff && c.secondary <= 0xff_ffff && c.tertiary <= 0xff_ffff && c.neutral <= 0xff_ffff && c.neutralVariant <= 0xff_ffff
  }

  /** What the app shows after a successful transaction is the selection: its mode, and for a custom palette its colour. */
  lemma AppliedIsShown(io: Io, env: Environment, selection: Selection, now: int)
    requires 31 <= env.sdk <= I32_MAX && 0 <= env.user <= I32_MAX
    ensures var r := ApplyTo(io, env, selection, now).1;
      r.Ok? && IsColors(r.value.colors) ==>
        && var shown := W.ParseResponse(W.PALETTE, W.Encode(W.PaletteFields(r.value)));
        && shown.Some? && |shown.value| == 12
        && shown.value[0] == (82, if selection.Wallpaper? then 0 else 1)
        && (selection.Custom? ==> shown.value[1] == (83, selection.seed))
        && (selection.Custom? && env.sdk >= 33 ==> shown.value[2] == (84, selection.style))
        && shown.value[10] == (92, r.value.outcome)
  {
    hide ApplyTo, W.ParseResponse, W.Encode, W.PaletteFields, OutcomeTold;
    ApplyToReports(io, env, selection, now);
    var (n, r) := ApplyTo(io, env, selection, now);
    if r.Ok? && IsColors(r.value.colors) {
      OutcomeIsCode(r.value, io, n);
      W.PaletteRoundTrip(r.value);
    }
  }

  lemma OutcomeIsCode(s: PaletteState, io: Io, n: Io)
    requires OutcomeTold(s, io, n)
    ensures 0 <= s.outcome <= 2
  {
  }

  /** A selection that is not accepted, or a ROM without the palette engine, changes nothing. */
  lemma ApplyToRefuses(io: Io, env: Environment, selection: Selection, now: int)
    ensures Validate(selection, env.sdk).Some? ==> ApplyTo(io, env, selection, now) == (io, Err(Validate(selection, env.sdk).value))
    ensures Validate(selection, env.sdk).None? && !env.supported ==> ApplyTo(io, env, selection, now) == (io, Err(Unsupported))
  {
  }

  // ---------- when nothing fails ----------

  /** The next `steps` steps work, and no other picker stores anything. */
  predicate Calm(s: Script, steps: nat) {
    steps == 0 || (s.Then? && s.turn.ok && s.turn.picker.None? && Calm(s.rest, steps - 1))
  }

  /** Among the next `waits` samples, each after a pause, two in a row agree, on changed colours where a change is needed. */
  predicate Settles(s: Script, waits: nat, selection: Selection, before: Colors, previous: Option<Colors>) {
    && waits > 0 && s.Then? && s.rest.Then?
    && var c := s.rest.turn.colors;
       (previous == Some(c) && (c != before || selection.Wallpaper?)) || Settles(s.rest.rest, waits - 1, selection, before, Some(c))
  }

  lemma {:induction false} CalmLess(s: Script, steps: nat, fewer: nat)
    requires Calm(s, steps) && fewer <= steps
    ensures Calm(s, fewer)
  {
    if fewer > 0 { CalmLess(s.rest, steps - 1, fewer - 1); }
  }

  /** The sampling loop ends with a settled change exactly when there is one to be seen. */
  lemma {:induction false} SettleExactly(waits: nat, io: Io, selection: Selection, before: Colors, actual: Colors,
                                         previous: Option<Colors>, settled: bool, steps: nat)
    requires Calm(io.script, steps + 2 * waits) && (settled ==> actual == before && selection.Custom?)
    ensures var (n, r) := Settle(waits, io, selection, before, actual, previous, settled);
      && r.Ok? && n.stored == io.stored && Calm(n.script, steps)
      && (r.value.1 && (selection.Wallpaper? || r.value.0 != before) <==> Settles(io.script, waits, selection, before, previous))
  {
    if waits > 0 {
      var p := Pause(io);
      assert Calm(p.script, steps + 2 * waits - 1) && p.stored == io.stored;
      var (n, c) := Sample(p);
      assert c.Ok? && Calm(n.script, steps + 2 * waits - 2) && n.stored == io.stored && c.value == io.script.rest.turn.colors;
      var agrees := previous == Some(c.value);
      if agrees && (c.value != before || selection.Wallpaper?) {
        CalmLess(n.script, steps + 2 * waits - 2, steps);
      } else {
        SettleExactly(waits - 1, n, selection, before, c.value, Some(c.value), agrees, steps);
      }
    }
  }

  /** The script without its next `steps` steps. */
  function Skip(s: Script, steps: nat): Script {
    if steps == 0 || s.End? then s else Skip(s.rest, steps - 1)
  }

  /** The colours that step `i` from here would sample. */
  predicate Samples(s: Script, i: nat, c: Colors) {
    Skip(s, i).Then? && Skip(s, i).turn.colors == c
  }

  lemma {:induction false} SkipTwice(s: Script, a: nat, b: nat)
    ensures Skip(Skip(s, a), b) == Skip(s, a + b)
  {
    if a > 0 && s.Then? { SkipTwice(s.rest, a - 1, b); }
  }

  lemma CalmRead(io: Io, steps: nat)
    requires Calm(io.script, steps + 1)
    ensures var (n, m) := Read(io);
      n.stored == io.stored && n.script == Skip(io.script, 1) && Calm(n.script, steps) && m == Decode(io.stored)
  {
    assert Skip(io.script, 1) == Skip(io.script.rest, 0);
  }

  lemma CalmPut(io: Io, value: Setting, steps: nat)
    requires Calm(io.script, steps + 1)
    ensures var (n, ok) := Put(io, value); ok && n.stored == Object(value) && n.script == Skip(io.script, 1) && Calm(n.script, steps)
  {
    assert Skip(io.script, 1) == Skip(io.script.rest, 0);
  }

  lemma CalmPause(io: Io, steps: nat)
    requires Calm(io.script, steps + 1)
    ensures Pause(io).stored == io.stored && Pause(io).script == Skip(io.script, 1) && Calm(Pause(io).script, steps)
  {
    assert Skip(io.script, 1) == Skip(io.script.rest, 0);
  }

  lemma CalmSample(io: Io, steps: nat)
    requires Calm(io.script, steps + 1)
    ensures var (n, c) := Sample(io);
      n.stored == io.stored && n.script == Skip(io.script, 1) && Calm(n.script, steps) && c.Ok? && Samples(io.script, 0, c.value)
  {
    assert Skip(io.script, 1) == Skip(io.script.rest, 0);
  }

  /** Without failures an attempt succeeds exactly when the native colours settle as they should. */
  lemma AttemptExactly(io: Io, env: Environment, selection: Selection, before: Colors, next: Setting)
    requires Calm(io.script, 19)
    ensures Attempt(io, env, selection, before, next).1.Ok? <==> Settles(Skip(io.script, 2), 8, selection, before, None)
  {
    hide Settle, Put, Read, Describe, Calm, Settles, Skip;
    CalmPut(io, next, 18);
    var a := Put(io, next).0;
    CalmRead(a, 17);
    SkipTwice(io.script, 1, 1);
    var b := Read(a).0;
    SameColorsSelf(next);
    hide SameColors;
    SettleExactly(8, b, selection, before, before, None, false, 1);
    var (c, seen) := Settle(8, b, selection, before, before, None, false);
    CalmRead(c, 0);
  }

  lemma CalmSettledBefore(io: Io, first: Colors, second: Colors, steps: nat)
    requires Calm(io.script, steps + 3) && Samples(io.script, 0, first) && Samples(io.script, 2, second)
    ensures var (n, c) := SettledBefore(io);
      && n.stored == io.stored && c == (if first == second then Ok(second) else Err(Conflict))
      && n.script == Skip(io.script, 3) && Calm(n.script, steps)
  {
    hide Pause, Sample, Calm, Skip;
    CalmSample(io, steps + 2);
    var a := Sample(io).0;
    CalmPause(a, steps + 1);
    CalmSample(Pause(a), steps);
    SkipTwice(io.script, 1, 1);
    SkipTwice(io.script, 2, 1);
    SkipTwice(io.script, 2, 0);
  }

  /** What is read and sampled before the write. */
  lemma CalmPrelude(io: Io, first: Colors, second: Colors)
    requires Calm(io.script, 24) && Samples(io.script, 1, first) && Samples(io.script, 3, second)
    ensures var (a, original) := Read(io);
      var (b, before) := SettledBefore(a);
      var (c, again) := Read(b);
      && original == Decode(io.stored) && again == original && before == (if first == second then Ok(second) else Err(Conflict))
      && c.script == Skip(io.script, 5) && Calm(c.script, 19)
  {
    hide Read, SettledBefore, Decode, Calm, Skip;
    CalmRead(io, 23);
    var a := Read(io).0;
    SkipTwice(io.script, 1, 0);
    SkipTwice(io.script, 1, 2);
    CalmSettledBefore(a, first, second, 20);
    SkipTwice(io.script, 1, 3);
    CalmRead(SettledBefore(a).0, 19);
    SkipTwice(io.script, 4, 1);
  }

  lemma DecodedStored(s: Stored)
    requires s != Malformed
    ensures Decode(s) == Ok(if s.Object? then s.fields else map[])
  {
  }

  /** A stored setting that is no object is reported and left as it is. */
  lemma MalformedIsLeft(io: Io, env: Environment, selection: Selection, now: int)
    requires Validate(selection, env.sdk).None? && env.supported && io.stored == Malformed && Calm(io.script, 1)
    ensures var (n, r) := ApplyTo(io, env, selection, now); r == Err(InvalidSettings) && n.stored == io.stored && n.writes == io.writes
  {
  }

  lemma ApplyToUnfolds(io: Io, env: Environment, selection: Selection, now: int)
    requires Validate(selection, env.sdk).None? && env.supported && Read(io).1.Ok?
    ensures var (a, original) := Read(io);
      var (b, before) := SettledBefore(a);
      var (c, again) := Read(b);
      ApplyTo(io, env, selection, now).1.Ok? <==>
        && before.Ok?
        && (|| SelectionMatches(original.value, selection, env.sdk)
            || (again.Ok? && again.value == original.value && Attempt(c, env, selection, before.value, NextSetting(original.value, selection, env.sdk, now)).1.Ok?))
  {
    hide Read, SettledBefore, Attempt, Rollback, SameColors, SelectionMatches, NextSetting, Describe;
    var (a, original) := Read(io);
    var (b, before) := SettledBefore(a);
    var (c, again) := Read(b);
    if before.Ok? && !SelectionMatches(original.value, selection, env.sdk) {
      NeverAlready(original.value, selection, env.sdk, now);
      if again.Ok? && again.value == original.value {
        var next := NextSetting(original.value, selection, env.sdk, now);
        var (d, result) := Attempt(c, env, selection, before.value, next);
        assert result.Ok? ==> ApplyTo(io, env, selection, now) == (d, result);
        assert result.Err? ==> ApplyTo(io, env, selection, now).1.Err?;
      }
    }
  }

  /**
   * Without failures and without another picker, an accepted selection succeeds if and only if the
   * two samples before agree, and the selection is in force already or the colours settle within
   * the eight samples after the write.
   */
  lemma ApplyToExactly(io: Io, env: Environment, selection: Selection, now: int, first: Colors, second: Colors)
    requires Validate(selection, env.sdk).None? && env.supported && io.stored != Malformed && Calm(io.script, 24)
    requires Samples(io.script, 1, first) && Samples(io.script, 3, second)
    ensures ApplyTo(io, env, selection, now).1.Ok? <==>
      && first == second
      && (InForce(if io.stored.Object? then io.stored.fields else map[], selection, env.sdk)
          || Settles(Skip(io.script, 7), 8, selection, first, None))
  {
    hide Read, SettledBefore, Attempt, SelectionMatches, NextSetting, Decode, Settles, Calm, Skip, Samples, ApplyTo, Validate, InForce;
    DecodedStored(io.stored);
    MatchesExactly(Decode(io.stored).value, selection, env.sdk);
    CalmPrelude(io, first, second);
    SkipTwice(io.script, 5, 2);
    ApplyToUnfolds(io, env, selection, now);
    if first == second {
      var c := Read(SettledBefore(Read(io).0).0).0;
      AttemptExactly(c, env, selection, first, NextSetting(Decode(io.stored).value, selection, env.sdk, now));
    }
  }
}
