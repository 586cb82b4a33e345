// The service record as the daemon keeps it: fields changed in place, saved, and taken back when a
// save fails; each method has the effect of its specification.
module ServiceState {
  import Q = ServiceAnswers
  import opened ServiceControl
  import opened Wrappers

  class Service {
    var enabled: bool
    var configured: bool
    var originals: Originals
    var pending: bool
    var disk: Record
    var nodes: map<Key, int>
    var restoring: bool
    var alive: bool
    var script: Script

    ghost function State(): World
      reads this
    {
      World(Record(enabled, configured, originals, pending), disk, nodes, restoring, alive, script)
    }

    method Draw() returns (o: Option<Outcome>)
      modifies this`alive, this`script
      ensures if Acts(old(State())) then o == Some(old(script).outcome) && State() == Advance(old(State()))
              else o == None && State() == old(State()).(alive := false)
    {
      if alive && script.Then? {
        o := Some(script.outcome);
        alive := !script.outcome.Dies?;
        script := script.rest;
      } else {
        o := None;
        alive := false;
      }
    }

    /** Replaces the file with what memory now holds. */
    method Save() returns (ok: bool)
      modifies this`disk, this`alive, this`script
      ensures ok == (Acts(old(State())) && old(script).outcome.Fine?)
      ensures if !Acts(old(State())) then State() == old(State()).(alive := false)
              else State() == Advance(old(State())).(disk := if ok || (old(script).outcome.Dies? && old(script).outcome.landed) then old(State()).memory else old(disk))
    {
      var o := Draw();
      ok := o.Some? && o.value.Fine?;
      if ok || (o.Some? && o.value.Dies? && o.value.landed) {
        disk := Record(enabled, configured, originals, pending);
      }
    }

    method SaveIntent(on: bool, chosen: bool) returns (ok: bool)
      modifies this
      ensures (State(), ok) == SetIntent(old(State()), on, chosen)
      ensures Agrees(old(State())) ==> Agrees(State())
    {
      var was, had := enabled, configured;
      enabled, configured := on, chosen;
      ok := Save();
      if !ok {
        enabled, configured := was, had;
      }
    }

    method SavePending(owed: bool) returns (ok: bool)
      modifies this
      ensures (State(), ok) == SetReleasePending(old(State()), owed)
      ensures Agrees(old(State())) ==> Agrees(State())
    {
      var was := pending;
      pending := owed;
      ok := Save();
      if !ok {
        pending := was;
      }
    }

    method RememberOriginal(k: Key, v: int) returns (ok: bool)
      modifies this
      ensures (State(), ok) == Remember(old(State()), k, v)
      ensures Agrees(old(State())) ==> Agrees(State())
    {
      if restoring || k in originals {
        return true;
      }
      var was := originals;
      originals := originals[k := v];
      ok := Save();
      if !ok {
        originals := originals - {k};
        assert originals == was;
      }
    }

    method ReplaceOriginal(k: Key, v: int) returns (ok: bool)
      modifies this
      ensures (State(), ok) == Replace(old(State()), k, v)
      ensures Agrees(old(State())) ==> Agrees(State())
    {
      var was := originals;
      var previous := if k in originals then Some(originals[k]) else None;
      originals := originals[k := v];
      ok := Save();
      if !ok {
        originals := if previous.Some? then originals[k := previous.value] else originals - {k};
        assert originals == was;
      }
    }

    method Clear() returns (ok: bool)
      modifies this
      ensures (State(), ok) == ClearOriginals(old(State()))
      ensures Agrees(old(State())) ==> Agrees(State())
    {
      var was := originals;
      originals := map[];
      ok := Save();
      if !ok {
        originals := was;
      }
    }

    method ForgetOriginals(ks: seq<Key>) returns (ok: bool)
      modifies this
      ensures (State(), ok) == Forget(old(State()), ks)
      ensures Agrees(old(State())) ==> Agrees(State())
    {
      var was := originals;
      for i := 0 to |ks|
        invariant State() == old(State()).(memory := old(State()).memory.(originals := originals))
        invariant Without(originals, ks[i..]) == Without(was, ks)
      {
        originals := originals - {ks[i]};
        assert ks[i..][1..] == ks[i + 1..];
      }
      ok := Save();
      if !ok {
        originals := was;
      }
    }

    method Read(k: Key) returns (seen: Option<int>)
      modifies this`alive, this`script
      ensures (State(), seen) == ReadNode(old(State()), k)
    {
      var o := Draw();
      seen := if o.Some? && o.value.Fine? && k in nodes then Some(nodes[k]) else None;
    }

    method Put(k: Key, v: int) returns (ok: bool)
      modifies this`nodes, this`alive, this`script
      ensures (State(), ok) == WriteNode(old(State()), k, v)
    {
      var o := Draw();
      ok := o.Some? && o.value.Fine? && k in nodes;
      if o.Some? && k in nodes {
        nodes := nodes[k := if ok then v else o.value.raw];
      }
    }

    method WriteRecorded(k: Key, v: int) returns (ok: bool)
      modifies this
      ensures (State(), ok) == Write(old(State()), k, v)
    {
      if !restoring && Reversible(k) && k !in originals {
        var seen := Read(k);
        if seen.None? {
          return false;
        }
        ok := RememberOriginal(k, seen.value);
        if !ok {
          return;
        }
      }
      ok := Put(k, v);
    }

    method OpenRange(k: Key, v: int) returns (ok: bool)
      requires k.Min?
      modifies this`nodes, this`alive, this`script
      ensures (State(), ok) == OpenOne(old(State()), k, v)
    {
      var top := Read(Max(k.id));
      ok := true;
      if top.Some? && v > top.value {
        ok := Put(Max(k.id), v);
      }
      var lowered := Put(k, v);
      ok := ok && lowered;
    }

    method PutBack(k: Key, v: int) returns (ok: bool)
      modifies this`nodes, this`alive, this`script
      ensures (State(), ok) == PutBackOne(old(State()), k, v)
    {
      ok := Put(k, v);
      if ok {
        var seen := Read(k);
        ok := seen == Some(v);
      }
    }

    method OpenEvery(o: Originals, ks: seq<Key>) returns (ok: bool)
      modifies this`nodes, this`alive, this`script
      ensures (State(), ok) == OpenRanges(old(State()), o, ks)
    {
      ok := true;
      for i := 0 to |ks|
        invariant OpenRanges(old(State()), o, ks) ==
          (OpenRanges(State(), o, ks[i..]).0, ok && OpenRanges(State(), o, ks[i..]).1)
      {
        assert ks[i..][1..] == ks[i + 1..];
        if ks[i].Min? && ks[i] in o {
          var done := OpenRange(ks[i], o[ks[i]]);
          ok := ok && done;
        }
      }
    }

    method PutBackEvery(o: Originals, ks: seq<Key>) returns (ok: bool)
      modifies this`nodes, this`alive, this`script
      ensures (State(), ok) == PutBackAll(old(State()), o, ks)
    {
      ok := true;
      for i := 0 to |ks|
        invariant PutBackAll(old(State()), o, ks) ==
          (PutBackAll(State(), o, ks[i..]).0, ok && PutBackAll(State(), o, ks[i..]).1)
      {
        assert ks[i..][1..] == ks[i + 1..];
        if Reversible(ks[i]) && ks[i] in o {
          var done := PutBack(ks[i], o[ks[i]]);
          ok := ok && done;
        }
      }
    }

    method RestoreAll(ks: seq<Key>) returns (ok: bool)
      modifies this
      ensures (State(), ok) == RestoreReleased(old(State()), ks)
    {
      restoring := true;
      var o := originals;
      var others := Draw();
      var widened := OpenEvery(o, ks);
      var put := PutBackEvery(o, ks);
      var kept := Draw();
      restoring := false;
      ok := others.Some? && others.value.Fine? && widened && put && kept.Some? && kept.value.Fine?;
    }

    method FinishRelease(ks: seq<Key>) returns (ok: bool)
      modifies this
      ensures (State(), ok) == Release(old(State()), ks)
    {
      ok := RestoreAll(ks);
      if ok {
        ok := SavePending(false);
      }
    }

    method DisableService(ks: seq<Key>, items: seq<(nat, int)>) returns (ok: bool)
      modifies this
      ensures (State(), ok) == Disable(old(State()), ks, items)
      ensures forall orig :: Ready(old(State()), ks, orig) ==> Inv(State(), orig) && DisableEffect(State(), ok)
      ensures ok && old(State().memory) == old(disk) ==> disk == Record(false, old(configured),
        if old(enabled) then Q.Noted(old(originals), items) else old(originals), false)
    {
      DisableHolds(ks, items);
      hide Store, Release, Inv, DisableEffect, Owed, Covers, CaptureResume;
      forall orig: map<Key, int> | Ready(State(), ks, orig)
        ensures var (n, done) := Disable(State(), ks, items); Inv(n, orig) && DisableEffect(n, done)
      {
        DisableKeeps(State(), ks, items, orig);
      }
      if enabled {
        ok := CaptureChoices(items);
        if !ok {
          return;
        }
      }
      ok := SavePending(true);
      if !ok {
        return;
      }
      ok := SaveIntent(false, configured);
      if ok {
        ok := FinishRelease(ks);
      }
    }

    method CaptureChoices(items: seq<(nat, int)>) returns (ok: bool)
      modifies this
      ensures (State(), ok) == CaptureResume(old(State()), items)
    {
      ok := true;
      var i := 0;
      while i < |items| && ok
        invariant 0 <= i <= |items|
        invariant ok ==> CaptureResume(old(State()), items) == CaptureResume(State(), items[i..])
        invariant !ok ==> CaptureResume(old(State()), items) == (State(), false)
        decreases |items| - i, ok
      {
        assert items[i..][1..] == items[i + 1..];
        ok := ReplaceOriginal(Item(items[i].0), items[i].1);
        i := i + 1;
      }
    }

    method ResetService(ks: seq<Key>, items: seq<(nat, int)>) returns (ok: bool)
      modifies this
      ensures (State(), ok) == Reset(old(State()), ks, items)
    {
      ok := DisableService(ks, items);
      if !ok {
        return;
      }
      var cleared := Draw();
      ok := cleared.Some? && cleared.value.Fine?;
      if ok {
        ok := SaveIntent(false, false);
      }
      if ok {
        ok := Clear();
      }
      if ok {
        ok := SaveIntent(true, false);
      }
    }

    lemma EnableHolds()
      ensures var (n, done) := Enable(State());
        && n.nodes == nodes
        && (done && State().memory == disk ==> n.disk == disk.(enabled := true, pending := false))
    {
      if State().memory == disk { Q.EnableMeans(State()); } else { Q.EnableNodes(State()); }
      hide Enable;
    }

    lemma DisableHolds(ks: seq<Key>, items: seq<(nat, int)>)
      ensures var (n, done) := Disable(State(), ks, items);
        done && State().memory == disk ==>
          n.disk == Record(false, configured, if enabled then Q.Noted(originals, items) else originals, false)
    {
      hide Disable;
      if State().memory == disk { Q.DisableMeans(State(), ks, items); }
    }

    method EnableService() returns (ok: bool)
      modifies this
      ensures (State(), ok) == Enable(old(State()))
      ensures nodes == old(nodes)
      ensures ok && old(State().memory) == old(disk) ==> disk == old(disk).(enabled := true, pending := false)
    {
      hide Store;
      EnableHolds();
      var resumed := Draw();
      ok := resumed.Some? && resumed.value.Fine?;
      if ok {
        ok := SavePending(false);
      }
      if ok {
        ok := SaveIntent(true, configured);
      }
    }
  }
}
