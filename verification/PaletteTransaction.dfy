// The palette transaction: optimistic concurrency on a shared setting. Another theme picker may
// change the setting whenever the daemon pauses or samples the native colours.
module PaletteTransaction {
  import opened PaletteSetting
  import opened Wrappers

  /** What the settings provider stores. */
  datatype Stored = Missing | Object(fields: Setting) | Malformed

  datatype Colors = Colors(primary: nat, secondary: nat, tertiary: nat, neutral: nat, neutralVariant: nat)

  /**
   * What one step meets: whether the Android command succeeds, the colours it reports, what
   * another picker stores meanwhile, and what a write that reports failure leaves behind.
   */
  datatype Turn = Turn(ok: bool, colors: Colors, picker: Option<Stored>, left: Stored)

  datatype Script = End | Then(turn: Turn, rest: Script)

  /** One write: what it replaced, the reading it was based on, its value, and what it left stored. */
  datatype Write = Write(over: Stored, base: Setting, value: Setting, after: Stored)

  datatype Io = Io(stored: Stored, script: Script, lastRead: Setting, writes: seq<Write>, samples: seq<Colors>)

  datatype Result<+T> = Ok(value: T) | Err(error: Error)

  datatype Environment = Environment(supported: bool, sdk: int, user: int)

  datatype PaletteState = PaletteState(env: Environment, mode: int, seed: int, style: int, colors: Colors, outcome: int)

  function Decode(s: Stored): Result<Setting> {
    match s
    case Missing => Ok(map[])
    case Object(m) => Ok(m)
    case Malformed => Err(InvalidSettings)
  }

  // ---------- input and output ----------

  function Read(io: Io): (Io, Result<Setting>) {
    match io.script
    case End => (io, Err(Unavailable))
    case Then(turn, rest) =>
      if !turn.ok then (io.(script := rest), Err(Unavailable))
      else
        var m := Decode(io.stored);
        (io.(script := rest, lastRead := if m.Ok? then m.value else io.lastRead), m)
  }

  /** What a write of `value` leaves stored. */
  function After(io: Io, value: Setting): Stored {
    match io.script
    case End => io.stored
    case Then(turn, _) => if turn.ok then Object(value) else turn.left
  }

  function Put(io: Io, value: Setting): (Io, bool) {
    var n := io.(stored := After(io, value), writes := io.writes + [Write(io.stored, io.lastRead, value, After(io, value))]);
    match io.script
    case End => (n, false)
    case Then(turn, rest) => (n.(script := rest), turn.ok)
  }

  function Picked(io: Io, turn: Turn): Stored {
    if turn.picker.Some? then turn.picker.value else io.stored
  }

  function Pause(io: Io): Io {
    match io.script
    case End => io
    case Then(turn, rest) => io.(stored := Picked(io, turn), script := rest)
  }

  function Sample(io: Io): (Io, Result<Colors>) {
    match io.script
    case End => (io, Err(Unavailable))
    case Then(turn, rest) =>
      var n := io.(stored := Picked(io, turn), script := rest);
      if turn.ok then (n.(samples := n.samples + [turn.colors]), Ok(turn.colors)) else (n, Err(Unavailable))
  }

  // ---------- the transaction ----------

  function SettledBefore(io: Io): (Io, Result<Colors>) {
    var (a, first) := Sample(io);
    if first.Err? then (a, first)
    else
      var (b, second) := Sample(Pause(a));
      if second.Err? then (b, second)
      else if first.value != second.value then (b, Err(Conflict))
      else (b, second)
  }

  /** Samples up to `waits` times until two in a row agree and show a change. */
  function Settle(waits: nat, io: Io, selection: Selection, before: Colors, actual: Colors, previous: Option<Colors>, settled: bool):
    (Io, Result<(Colors, bool)>)
  {
    if waits == 0 then (io, Ok((actual, settled)))
    else
      var (n, c) := Sample(Pause(io));
      if c.Err? then (n, Err(c.error))
      else
        var agrees := previous == Some(c.value);
        if agrees && (c.value != before || selection.Wallpaper?) then (n, Ok((c.value, true)))
        else Settle(waits - 1, n, selection, before, c.value, Some(c.value), agrees)
  }

  function Describe(env: Environment, m: Setting, colors: Colors, outcome: int): PaletteState {
    var palette := TextOf(m, Palette);
    var seed := if palette.Some? && ParseRgb(palette.value).Some? then ParseRgb(palette.value).value else -1;
    var source := TextOf(m, Source);
    var wallpaper := source == Some("home_wallpaper") || source == Some("lock_wallpaper");
    var style := TextOf(m, Style);
    PaletteState(env,
      if wallpaper then 0 else if seed >= 0 then 1 else if source == Some("preset") then 2 else 0,
      seed,
      if style.None? then 0 else Position(style.value, STYLES),
      colors, outcome)
  }

  function Position(s: string, names: seq<string>): int {
    if names == [] then -1
    else if names[0] == s then 0
    else var p := Position(s, names[1..]); if p < 0 then -1 else p + 1
  }

  /** The write and its verification. */
  function Attempt(io: Io, env: Environment, selection: Selection, before: Colors, next: Setting): (Io, Result<PaletteState>) {
    var (a, written) := Put(io, next);
    if !written then (a, Err(Unavailable))
    else
      var (b, saved) := Read(a);
      if saved.Err? then (b, Err(saved.error))
      else if !SameColors(saved.value, next) then (b, Err(Readback))
      else
        var (c, seen) := Settle(8, b, selection, before, before, None, false);
        if seen.Err? then (c, Err(seen.error))
        else if !seen.value.1 then (c, Err(Readback))
        else
          var (d, current) := Read(c);
          if current.Err? then (d, Err(current.error))
          else if !SameColors(current.value, next) then (d, Err(Conflict))
          else if selection.Custom? && seen.value.0 == before then (d, Err(Readback))
          else (d, Ok(Describe(env, current.value, seen.value.0, if seen.value.0 != before then 1 else 2)))
  }

  /** `current` with the colour fields of `original`. */
  function WithColorsOf(current: Setting, original: Setting): Setting {
    (current - COLOR_KEYS) + map k | k in original && k in COLOR_KEYS :: original[k]
  }

  function Rollback(io: Io, original: Setting, attempted: Setting): (Io, bool) {
    var (a, current) := Read(io);
    if current.Err? then (a, false)
    else if !SameColors(current.value, attempted) then (a, true)
    else Put(a, WithColorsOf(current.value, original))
  }

  function ApplyTo(io: Io, env: Environment, selection: Selection, now: int): (Io, Result<PaletteState>) {
    var invalid := Validate(selection, env.sdk);
    if invalid.Some? then (io, Err(invalid.value))
    else if !env.supported then (io, Err(Unsupported))
    else
      var (a, original) := Read(io);
      if original.Err? then (a, Err(original.error))
      else
        var (b, before) := SettledBefore(a);
        if before.Err? then (b, Err(before.error))
        else if SelectionMatches(original.value, selection, env.sdk) then (b, Ok(Describe(env, original.value, before.value, 0)))
        else
          var next := NextSetting(original.value, selection, env.sdk, now);
          if SameColors(original.value, next) then (b, Ok(Describe(env, original.value, before.value, 0)))
          else
            var (c, again) := Read(b);
            if again.Err? then (c, Err(again.error))
            else if again.value != original.value then (c, Err(Conflict))
            else
              var (d, result) := Attempt(c, env, selection, before.value, next);
              if result.Ok? then (d, result)
              else
                var (e, restored) := Rollback(d, original.value, next);
                (e, if restored then result else Err(RestoreFailed))
  }

  // ---------- what each part may do ----------

  lemma ReadFacts(io: Io)
    ensures var (n, m) := Read(io);
      n.stored == io.stored && n.writes == io.writes && n.samples == io.samples && OnlyPicked(io, n)
      && (m.Ok? ==> Decode(n.stored) == m && n.lastRead == m.value)
      && (m.Err? ==> m.error != RestoreFailed)
  {
  }

  lemma PutFacts(io: Io, value: Setting)
    ensures var n := Put(io, value).0;
      && n.writes == io.writes + [Write(io.stored, io.lastRead, value, n.stored)]
      && n.samples == io.samples && n.stored == After(io, value)
      && (forall s :: PickedIn(n.script, s) ==> PickedIn(io.script, s))
  {
  }

  /** Another picker stores `s` at some step of the script. */
  ghost predicate PickedIn(script: Script, s: Stored) {
    script.Then? && (script.turn.picker == Some(s) || PickedIn(script.rest, s))
  }

  /** Nothing but another picker changed what is stored. */
  ghost predicate OnlyPicked(io: Io, n: Io) {
    && (forall s :: PickedIn(n.script, s) ==> PickedIn(io.script, s))
    && (n.stored == io.stored || PickedIn(io.script, n.stored))
  }

  lemma {:induction false} SettlePicks(waits: nat, io: Io, selection: Selection, before: Colors, actual: Colors,
                                       previous: Option<Colors>, settled: bool)
    ensures OnlyPicked(io, Settle(waits, io, selection, before, actual, previous, settled).0)
  {
    if waits > 0 {
      var p := Pause(io);
      assert OnlyPicked(io, p);
      var (n, c) := Sample(p);
      assert OnlyPicked(p, n);
      if c.Ok? {
        SettlePicks(waits - 1, n, selection, before, c.value, Some(c.value), previous == Some(c.value));
      }
    }
  }

  lemma SettledBeforeQuiet(io: Io)
    ensures var n := SettledBefore(io).0; n.writes == io.writes && n.lastRead == io.lastRead && OnlyPicked(io, n)
  {
    var a := Sample(io).0;
    assert OnlyPicked(io, a);
    var p := Pause(a);
    assert OnlyPicked(a, p);
    assert OnlyPicked(p, Sample(p).0);
  }

  lemma {:induction false} SettleQuiet(waits: nat, io: Io, selection: Selection, before: Colors, actual: Colors,
                                       previous: Option<Colors>, settled: bool)
    requires settled ==> |io.samples| >= 2 && io.samples[|io.samples| - 2] == io.samples[|io.samples| - 1] == actual
    requires previous.Some? ==> |io.samples| >= 1 && io.samples[|io.samples| - 1] == previous.value
    ensures var (n, r) := Settle(waits, io, selection, before, actual, previous, settled);
      && n.writes == io.writes && n.lastRead == io.lastRead
      && (r.Ok? && r.value.1 ==> |n.samples| >= 2 && n.samples[|n.samples| - 2] == n.samples[|n.samples| - 1] == r.value.0)
      && (r.Err? ==> r.error == Unavailable)
  {
    if waits > 0 {
      var p := Pause(io);
      assert p.samples == io.samples && p.writes == io.writes && p.lastRead == io.lastRead;
      var (n, c) := Sample(p);
      if c.Ok? {
        assert n.samples == io.samples + [c.value];
        var agrees := previous == Some(c.value);
        SettleQuiet(waits - 1, n, selection, before, c.value, Some(c.value), agrees);
      }
    }
  }

  lemma DescribesColors(env: Environment, m: Setting, colors: Colors, outcome: int)
    ensures Describe(env, m, colors, outcome).colors == colors
  {
  }

  /** The attempt makes one write, and succeeds only on two equal consecutive samples. */
  lemma AttemptEffect(io: Io, env: Environment, selection: Selection, before: Colors, next: Setting)
    ensures var (n, r) := Attempt(io, env, selection, before, next);
      && n.writes == io.writes + [Write(io.stored, io.lastRead, next, After(io, next))]
      && (n.stored == After(io, next) || PickedIn(io.script, n.stored))
      && (r.Ok? ==>
            && |n.samples| >= 2 && n.samples[|n.samples| - 2] == n.samples[|n.samples| - 1] == r.value.colors
            && Decode(n.stored).Ok? && SameColors(Decode(n.stored).value, next)
            && (selection.Custom? ==> r.value.colors != before))
      && (r.Err? ==> r.error != RestoreFailed)
  {
    hide Settle, SameColors, Put, Read, Describe, Decode, After, PickedIn;
    PutFacts(io, next);
    var (a, written) := Put(io, next);
    if written {
      ReadFacts(a);
      var (b, saved) := Read(a);
      if saved.Ok? && SameColors(saved.value, next) {
        SettleQuiet(8, b, selection, before, before, None, false);
        SettlePicks(8, b, selection, before, before, None, false);
        var (c, seen) := Settle(8, b, selection, before, before, None, false);
        ReadFacts(c);
        var (d, current) := Read(c);
        if seen.Ok? && current.Ok? {
          DescribesColors(env, current.value, seen.value.0, if seen.value.0 != before then 1 else 2);
        }
      }
    }
  }

  lemma WithColorsOfIs(current: Setting, original: Setting)
    ensures SameRest(current, WithColorsOf(current, original))
    ensures forall k :: k in COLOR_KEYS ==> Get(WithColorsOf(current, original), k) == Get(original, k)
  {
  }

  /** A rollback that reports success leaves colours that are not the attempted ones. */
  lemma RollbackEffect(io: Io, original: Setting, attempted: Setting)
    requires !SameColors(original, attempted)
    ensures var (n, ok) := Rollback(io, original, attempted);
      && (n.writes == io.writes
          || (&& |n.writes| == |io.writes| + 1 && n.writes[..|io.writes|] == io.writes
              && var w := n.writes[|io.writes|];
                 Decode(w.over) == Ok(w.base) && SameRest(w.base, w.value) && SameColors(w.base, attempted)))
      && (ok ==>
            && Decode(n.stored).Ok? && !SameColors(Decode(n.stored).value, attempted)
            && (n.writes == io.writes ==> n.stored == io.stored)
            && (n.writes != io.writes ==> forall k :: k in COLOR_KEYS ==> Get(Decode(n.stored).value, k) == Get(original, k)))
  {
    var (a, current) := Read(io);
    if current.Ok? && SameColors(current.value, attempted) {
      var v := WithColorsOf(current.value, original);
      WithColorsOfIs(current.value, original);
      RestoredColors(v, original, attempted);
      hide SameColors, SameRest, WithColorsOf, Get;
      var (n, ok) := Put(a, v);
      assert n.writes == io.writes + [Write(a.stored, a.lastRead, v, n.stored)];
    }
  }

  lemma SameColorsSelf(m: Setting)
    ensures SameColors(m, m)
  {
  }

  lemma RestoredColors(m: Setting, original: Setting, attempted: Setting)
    requires !SameColors(original, attempted) && forall k :: k in COLOR_KEYS ==> Get(m, k) == Get(original, k)
    ensures !SameColors(m, attempted)
  {
    var k :| k in COLOR_KEYS && k != Timestamp && Get(original, k) != Get(attempted, k);
    assert Get(m, k) != Get(attempted, k);
  }

  // ---------- the theorems ----------

  /** Every write replaces exactly what was last read, and changes nothing but colour fields. */
  ghost predicate Disciplined(w: Write) {
    Decode(w.over) == Ok(w.base) && SameRest(w.base, w.value)
  }

  /**
   * The colours of the first write are gone. After a second write the colour fields are those it
   * replaced; otherwise what is stored is another picker's, or what a write that failed left.
   */
  ghost predicate Undone(script: Script, n: Io)
    requires n.writes != []
  {
    && Decode(n.stored).Ok? && !SameColors(Decode(n.stored).value, n.writes[0].value)
    && (|n.writes| == 2 ==> forall k :: k in COLOR_KEYS ==> Get(Decode(n.stored).value, k) == Get(n.writes[0].base, k))
    && (|n.writes| == 1 ==> PickedIn(script, n.stored) || (n.stored == n.writes[0].after != Object(n.writes[0].value)))
  }

  lemma UndoneEarlier(script: Script, later: Script, n: Io)
    requires n.writes != [] && Undone(later, n) && forall s :: PickedIn(later, s) ==> PickedIn(script, s)
    ensures Undone(script, n)
  {
    hide SameColors, Get, PickedIn;
  }

  /** A failed attempt, and the rollback after it. */
  lemma FailureIsUndone(io: Io, env: Environment, selection: Selection, before: Colors, original: Setting, next: Setting)
    requires io.writes == [] && Decode(io.stored) == Ok(original) && io.lastRead == original
    requires !SameColors(original, next) && SameRest(original, next)
    ensures var (d, result) := Attempt(io, env, selection, before, next);
      var (n, restored) := Rollback(d, original, next);
      && 1 <= |n.writes| <= 2 && (forall w :: w in n.writes ==> Disciplined(w))
      && n.writes[0].value == next && n.writes[0].base == original
      && (|n.writes| == 2 ==> SameColors(n.writes[1].base, next))
      && (result.Err? && restored ==> Undone(io.script, n))
  {
    hide Attempt, Rollback, SameColors, SameRest, Get, PickedIn, After;
    AttemptEffect(io, env, selection, before, next);
    var (d, result) := Attempt(io, env, selection, before, next);
    assert d.writes == [Write(io.stored, io.lastRead, next, After(io, next))];
    RollbackEffect(d, original, next);
    SameColorsSelf(next);
  }

  /**
   * The transaction writes at most twice. Each write is based on the setting it replaces and
   * changes only colour fields; the second one replaces nothing but the first one's colours, so
   * another picker's choice is never overwritten. After a failure with anything but a failed
   * restore, the attempted colours are gone: after two writes the colour fields are the original
   * ones; after one, what is stored is what another picker stored meanwhile, or what the daemon's
   * own write left when it reported failure, and it stands untouched. Without a write nothing but
   * another picker changed the setting. Success after a write means the request is stored and two
   * consecutive samples agreed on the reported colours.
   */
  lemma TransactionIsSafe(io: Io, env: Environment, selection: Selection, now: int)
    requires io.writes == []
    ensures var (n, r) := ApplyTo(io, env, selection, now);
      && |n.writes| <= 2
      && (forall w :: w in n.writes ==> Disciplined(w))
      && (|n.writes| == 2 ==> SameColors(n.writes[1].base, n.writes[0].value))
      && (r.Err? && r.error != RestoreFailed && n.writes != [] ==> Undone(io.script, n))
      && (n.writes == [] ==> n.stored == io.stored || PickedIn(io.script, n.stored))
      && (r.Ok? && n.writes != [] ==>
            && |n.writes| == 1
            && Decode(n.stored).Ok? && SelectionMatches(Decode(n.stored).value, selection, env.sdk)
            && |n.samples| >= 2 && n.samples[|n.samples| - 2] == n.samples[|n.samples| - 1] == r.value.colors)
  {
    hide Read, SettledBefore, Attempt, Rollback, SameColors, SameRest, SelectionMatches, NextSetting, Get, Describe, PickedIn, After, Undone, Decode;
    if Validate(selection, env.sdk).None? && env.supported {
      ReadFacts(io);
      var (a, original) := Read(io);
      if original.Ok? {
        SettledBeforeQuiet(a);
        var (b, before) := SettledBefore(a);
        ReadFacts(b);
        var (c, again) := Read(b);
        var next := NextSetting(original.value, selection, env.sdk, now);
        NextKeepsRest(original.value, selection, env.sdk, now);
        if before.Ok? && again == original && !SameColors(original.value, next) {
          AttemptEffect(c, env, selection, before.value, next);
          FailureIsUndone(c, env, selection, before.value, original.value, next);
          var (d, result) := Attempt(c, env, selection, before.value, next);
          assert d.writes == [Write(c.stored, c.lastRead, next, After(c, next))];
          var n := Rollback(d, original.value, next).0;
          if result.Err? && Undone(c.script, n) { UndoneEarlier(io.script, c.script, n); }
          if result.Ok? { SelectionRecognised(original.value, Decode(d.stored).value, selection, env.sdk, now); }
        }
      }
    }
  }

  /** Applying a selection the stored setting already shows writes nothing. */
  lemma MatchingWritesNothing(io: Io, env: Environment, selection: Selection, now: int)
    requires Validate(selection, env.sdk).None?
    requires Decode(io.stored).Ok? && SelectionMatches(Decode(io.stored).value, selection, env.sdk)
    ensures ApplyTo(io, env, selection, now).0.writes == io.writes
  {
    hide SelectionMatches, NextSetting, Describe, Settle;
    ReadFacts(io);
    SettledBeforeQuiet(Read(io).0);
  }

  /** Applying the same selection again, to its own result, writes nothing. */
  lemma ApplyingTwiceWritesOnce(io: Io, env: Environment, selection: Selection, now: int, later: int, script: Script)
    requires io.writes == []
    requires ApplyTo(io, env, selection, now).1.Ok? && ApplyTo(io, env, selection, now).0.writes != []
    ensures var n := ApplyTo(io, env, selection, now).0;
      ApplyTo(n.(script := script), env, selection, later).0.writes == n.writes
  {
    TransactionIsSafe(io, env, selection, now);
    var n := ApplyTo(io, env, selection, now).0;
    assert Validate(selection, env.sdk).None?;
    hide ApplyTo, SelectionMatches;
    MatchingWritesNothing(n.(script := script), env, selection, later);
  }
}
