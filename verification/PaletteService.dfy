// The palette transaction in the daemon's own form: a mutable connection to the settings and the
// native colours, and the loops and early exits over it.
module PaletteService {
  import opened PaletteSetting
  import Report = PaletteReport
  import T = PaletteTransaction
  import opened Wrappers

  class PaletteIo {
    var stored: T.Stored
    var script: T.Script
    var lastRead: Setting
    var writes: seq<T.Write>
    var samples: seq<T.Colors>

    ghost function State(): T.Io
      reads this
    {
      T.Io(stored, script, lastRead, writes, samples)
    }

    method ReadSetting() returns (r: T.Result<Setting>)
      modifies this
      ensures (State(), r) == T.Read(old(State()))
    {
      if script.End? {
        return T.Err(Unavailable);
      }
      var ok := script.turn.ok;
      script := script.rest;
      if !ok {
        return T.Err(Unavailable);
      }
      r := T.Decode(stored);
      if r.Ok? {
        lastRead := r.value;
      }
    }

    method WriteSetting(value: Setting) returns (ok: bool)
      modifies this
      ensures (State(), ok) == T.Put(old(State()), value)
    {
      ok := false;
      var over := stored;
      if script.Then? {
        ok := script.turn.ok;
        stored := if ok then T.Object(value) else script.turn.left;
        script := script.rest;
      }
      writes := writes + [T.Write(over, lastRead, value, stored)];
    }

    method Pause()
      modifies this
      ensures State() == T.Pause(old(State()))
    {
      if script.Then? {
        if script.turn.picker.Some? {
          stored := script.turn.picker.value;
        }
        script := script.rest;
      }
    }

    method Colors() returns (r: T.Result<T.Colors>)
      modifies this
      ensures (State(), r) == T.Sample(old(State()))
    {
      if script.End? {
        return T.Err(Unavailable);
      }
      var turn := script.turn;
      if turn.picker.Some? {
        stored := turn.picker.value;
      }
      script := script.rest;
      if !turn.ok {
        return T.Err(Unavailable);
      }
      samples := samples + [turn.colors];
      r := T.Ok(turn.colors);
    }

    method SettledBefore() returns (r: T.Result<T.Colors>)
      modifies this
      ensures (State(), r) == T.SettledBefore(old(State()))
    {
      var first := Colors();
      if first.Err? {
        return first;
      }
      Pause();
      var second := Colors();
      if second.Ok? && first.value != second.value {
        return T.Err(Conflict);
      }
      r := second;
    }

    /** Samples until two in a row agree and show a change, at most eight times. */
    method Settle(selection: Selection, before: T.Colors) returns (r: T.Result<(T.Colors, bool)>)
      modifies this
      ensures (State(), r) == T.Settle(8, old(State()), selection, before, before, None, false)
    {
      var actual := before;
      var previous: Option<T.Colors> := None;
      var settled := false;
      var waits := 8;
      while waits > 0
        invariant 0 <= waits <= 8
        invariant T.Settle(8, old(State()), selection, before, before, None, false)
               == T.Settle(waits, State(), selection, before, actual, previous, settled)
      {
        Pause();
        var c := Colors();
        if c.Err? {
          return T.Err(c.error);
        }
        actual := c.value;
        settled := previous == Some(actual);
        previous := Some(actual);
        if settled && (actual != before || selection.Wallpaper?) {
          break;
        }
        waits := waits - 1;
      }
      r := T.Ok((actual, settled));
    }

    method Rollback(original: Setting, attempted: Setting) returns (ok: bool)
      modifies this
      ensures (State(), ok) == T.Rollback(old(State()), original, attempted)
    {
      var current := ReadSetting();
      if current.Err? {
        return false;
      }
      if !SameColors(current.value, attempted) {
        return true;
      }
      ok := WriteSetting(T.WithColorsOf(current.value, original));
    }

    method Attempt(env: T.Environment, selection: Selection, before: T.Colors, next: Setting) returns (r: T.Result<T.PaletteState>)
      modifies this
      ensures (State(), r) == T.Attempt(old(State()), env, selection, before, next)
    {
      var written := WriteSetting(next);
      if !written {
        return T.Err(Unavailable);
      }
      var saved := ReadSetting();
      if saved.Err? {
        return T.Err(saved.error);
      }
      if !SameColors(saved.value, next) {
        return T.Err(Readback);
      }
      var seen := Settle(selection, before);
      if seen.Err? {
        return T.Err(seen.error);
      }
      var (actual, settled) := seen.value;
      if !settled {
        return T.Err(Readback);
      }
      var current := ReadSetting();
      if current.Err? {
        return T.Err(current.error);
      }
      if !SameColors(current.value, next) {
        return T.Err(Conflict);
      }
      if selection.Custom? && actual == before {
        return T.Err(Readback);
      }
      r := T.Ok(T.Describe(env, current.value, actual, if actual != before then 1 else 2));
    }

    method ApplyTo(env: T.Environment, selection: Selection, now: int) returns (r: T.Result<T.PaletteState>)
      modifies this
      ensures (State(), r) == T.ApplyTo(old(State()), env, selection, now)
      ensures old(writes) == [] ==>
        && |writes| <= 2 && (forall w :: w in writes ==> T.Disciplined(w))
        && (|writes| == 2 ==> SameColors(writes[1].base, writes[0].value))
        && (r.Err? && r.error != RestoreFailed && writes != [] ==> T.Undone(old(script), State()))
        && (writes == [] ==> stored == old(stored) || T.PickedIn(old(script), stored))
      ensures r.Ok? ==> Report.Reports(r.value, env, selection, writes != old(writes)) && Report.OutcomeTold(r.value, old(State()), State())
    {
      Report.ApplyToReports(State(), env, selection, now);
      hide Report.Reports, Report.OutcomeTold, T.Undone, T.Disciplined, SameColors, T.Attempt, T.Rollback, T.SettledBefore, T.Describe, SelectionMatches, NextSetting, T.PickedIn;
      if writes == [] {
        T.TransactionIsSafe(State(), env, selection, now);
      }
      var invalid := Validate(selection, env.sdk);
      if invalid.Some? {
        return T.Err(invalid.value);
      }
      if !env.supported {
        return T.Err(Unsupported);
      }
      var original := ReadSetting();
      if original.Err? {
        return T.Err(original.error);
      }
      var before := SettledBefore();
      if before.Err? {
        return T.Err(before.error);
      }
      if SelectionMatches(original.value, selection, env.sdk) {
        return T.Ok(T.Describe(env, original.value, before.value, 0));
      }
      var next := NextSetting(original.value, selection, env.sdk, now);
      if SameColors(original.value, next) {
        return T.Ok(T.Describe(env, original.value, before.value, 0));
      }
      var again := ReadSetting();
      if again.Err? {
        return T.Err(again.error);
      }
      if again.value != original.value {
        return T.Err(Conflict);
      }
      r := Attempt(env, selection, before.value, next);
      if r.Err? {
        var restored := Rollback(original.value, next);
        if !restored {
          r := T.Err(RestoreFailed);
        }
      }
    }
  }
}
