// The saved preferences behind the effective ones, field by field.
module Preferences {
  import A = Adapter
  import opened Controls
  import opened ControlOrder

  /** The persisted state; `rest` stands for the fields no control touches. */
  datatype PersistedState = PersistedState(
    touch: int,
    manual: int, mask: int,
    min0: int, max0: int, min4: int, max4: int, min7: int, max7: int,
    governor0: string, governor4: string, governor7: string,
    gpu: GpuFields,
    thermalModePrev: int,
    rest: int)

  function CopyPreference(c: Control, from: PersistedState, to: PersistedState): PersistedState {
    match c
    case Touch => to.(touch := from.touch)
    case CpuCores => to.(manual := from.manual, mask := from.mask)
    case CpuRange(P0) => to.(min0 := from.min0, max0 := from.max0)
    case CpuRange(P4) => to.(min4 := from.min4, max4 := from.max4)
    case CpuRange(P7) => to.(min7 := from.min7, max7 := from.max7)
    case CpuGovernor(P0) => to.(governor0 := from.governor0)
    case CpuGovernor(P4) => to.(governor4 := from.governor4)
    case CpuGovernor(P7) => to.(governor7 := from.governor7)
    case Gpu => to.(gpu := from.gpu)
    case Refresh => to
  }

  /** Walks the journaled originals in name order and puts each one's fields back. */
  function Overlay(ks: seq<Control>, entries: map<Control, PersistedState>, p: PersistedState): PersistedState
    requires forall c :: c in ks ==> c in entries
  {
    if ks == [] then p
    else
      var saved := entries[ks[0]];
      var q := CopyPreference(ks[0], saved, p);
      Overlay(ks[1..], entries, if ks[0].CpuRange? then q.(thermalModePrev := saved.thermalModePrev) else q)
  }

  function GlobalPreferences(entries: map<Control, PersistedState>, effective: PersistedState): PersistedState {
    Overlay(Walk(KEY_ORDER, entries.Keys), entries, effective)
  }

  /** The same state seen as one group of fields for each control. */
  function GroupOf(p: PersistedState, c: Control): Group {
    match c
    case Touch => Number(p.touch)
    case CpuCores => Pair(p.manual, p.mask)
    case CpuRange(P0) => Pair(p.min0, p.max0)
    case CpuRange(P4) => Pair(p.min4, p.max4)
    case CpuRange(P7) => Pair(p.min7, p.max7)
    case CpuGovernor(P0) => Name(p.governor0)
    case CpuGovernor(P4) => Name(p.governor4)
    case CpuGovernor(P7) => Name(p.governor7)
    case Gpu => GpuGroup(p.gpu)
    case Refresh => Nothing
  }

  /** Copying a control's fields moves its own group and no other. */
  lemma CopyMovesOneGroup(c: Control, d: Control, from: PersistedState, to: PersistedState)
    ensures GroupOf(CopyPreference(c, from, to), d) == GroupOf(if c == d then from else to, d)
    ensures CopyPreference(c, from, to).rest == to.rest
    ensures CopyPreference(c, from, to).thermalModePrev == to.thermalModePrev
  {
  }

  /** The groups are all there is, apart from `rest` and the thermal record. */
  lemma GroupsDetermine(p: PersistedState, q: PersistedState)
    requires forall c: Control :: GroupOf(p, c) == GroupOf(q, c)
    requires p.rest == q.rest
    ensures p == q.(thermalModePrev := p.thermalModePrev)
  {
    assert GroupOf(p, Touch) == GroupOf(q, Touch) && GroupOf(p, CpuCores) == GroupOf(q, CpuCores);
    assert GroupOf(p, CpuRange(P0)) == GroupOf(q, CpuRange(P0)) && GroupOf(p, CpuRange(P4)) == GroupOf(q, CpuRange(P4));
    assert GroupOf(p, CpuRange(P7)) == GroupOf(q, CpuRange(P7)) && GroupOf(p, CpuGovernor(P0)) == GroupOf(q, CpuGovernor(P0));
    assert GroupOf(p, CpuGovernor(P4)) == GroupOf(q, CpuGovernor(P4)) && GroupOf(p, Gpu) == GroupOf(q, Gpu);
    assert GroupOf(p, CpuGovernor(P7)) == GroupOf(q, CpuGovernor(P7));
  }

  lemma {:induction false} OverlayGroup(ks: seq<Control>, entries: map<Control, PersistedState>, p: PersistedState, c: Control)
    requires forall k :: k in ks ==> k in entries
    requires Distinct(ks)
    ensures GroupOf(Overlay(ks, entries, p), c) == GroupOf(if c in ks then entries[c] else p, c)
    ensures Overlay(ks, entries, p).rest == p.rest
  {
    hide GroupOf, CopyPreference;
    if ks != [] {
      var saved := entries[ks[0]];
      var q := CopyPreference(ks[0], saved, p);
      var r := if ks[0].CpuRange? then q.(thermalModePrev := saved.thermalModePrev) else q;
      CopyMovesOneGroup(ks[0], c, saved, p);
      ThermalIsNoGroup(q, saved.thermalModePrev, c);
      OverlayGroup(ks[1..], entries, r, c);
      assert ks == [ks[0]] + ks[1..];
    }
  }

  lemma ThermalIsNoGroup(p: PersistedState, mode: int, c: Control)
    ensures GroupOf(p.(thermalModePrev := mode), c) == GroupOf(p, c)
  {
  }

  /**
   * The user's preferences, group by group: a journaled control shows its original, every other
   * control its effective value, and no other field is touched. The order of the walk does not
   * matter, and an original contributes nothing but its own control's fields.
   */
  lemma GlobalPreferencesByGroup(entries: map<Control, PersistedState>, effective: PersistedState, c: Control)
    ensures GroupOf(GlobalPreferences(entries, effective), c) == GroupOf(if c in entries then entries[c] else effective, c)
    ensures GlobalPreferences(entries, effective).rest == effective.rest
  {
    WalkAll(entries.Keys);
    OverlayGroup(Walk(KEY_ORDER, entries.Keys), entries, effective, c);
  }

  /**
   * Borrowing never steals preferences, on the record itself: journaling a control's original,
   * and then storing anything at all in that control's fields, leaves the user's preferences as
   * they were, up to the thermal record.
   */
  lemma BorrowingKeepsPreferences(entries: map<Control, PersistedState>, effective: PersistedState, c: Control, scribble: PersistedState)
    requires c !in entries
    ensures var before := GlobalPreferences(entries, effective);
      var after := GlobalPreferences(entries[c := before], CopyPreference(c, scribble, effective));
      after == before.(thermalModePrev := after.thermalModePrev)
  {
    hide GroupOf, CopyPreference, GlobalPreferences;
    var before := GlobalPreferences(entries, effective);
    var written := CopyPreference(c, scribble, effective);
    var after := GlobalPreferences(entries[c := before], written);
    forall d: Control ensures GroupOf(after, d) == GroupOf(before, d) {
      GlobalPreferencesByGroup(entries[c := before], written, d);
      GlobalPreferencesByGroup(entries, effective, d);
      CopyMovesOneGroup(c, d, scribble, effective);
    }
    CopyMovesOneGroup(c, c, scribble, effective);
    GlobalPreferencesByGroup(entries[c := before], written, c);
    GlobalPreferencesByGroup(entries, effective, c);
    GroupsDetermine(after, before);
  }

  /** Giving a control back and dropping its journal entry leaves the user's preferences as they were. */
  lemma ReturningKeepsPreferences(entries: map<Control, PersistedState>, effective: PersistedState, c: Control)
    requires c in entries
    ensures var before := GlobalPreferences(entries, effective);
      var after := GlobalPreferences(entries - {c}, CopyPreference(c, entries[c], effective));
      after == before.(thermalModePrev := after.thermalModePrev)
  {
    hide GroupOf, CopyPreference, GlobalPreferences;
    var before := GlobalPreferences(entries, effective);
    var written := CopyPreference(c, entries[c], effective);
    var after := GlobalPreferences(entries - {c}, written);
    forall d: Control ensures GroupOf(after, d) == GroupOf(before, d) {
      GlobalPreferencesByGroup(entries - {c}, written, d);
      GlobalPreferencesByGroup(entries, effective, d);
      CopyMovesOneGroup(c, d, entries[c], effective);
    }
    CopyMovesOneGroup(c, c, entries[c], effective);
    GlobalPreferencesByGroup(entries - {c}, written, c);
    GlobalPreferencesByGroup(entries, effective, c);
    GroupsDetermine(after, before);
  }

  /** The slots of the ownership model show the persisted records, control by control. */
  ghost predicate Pictures(slots: map<Control, A.Slot>, records: map<Control, PersistedState>) {
    slots.Keys == records.Keys && forall c :: c in slots ==> slots[c].prefs == GroupOf(records[c], c)
  }

  /**
   * The overlay used by the ownership model, control by control, is the overlay of the persisted
   * records: what a save writes for a control is that control's fields of the global preferences.
   */
  lemma OverlayIsUserGroup(entries: map<Control, PersistedState>, effective: PersistedState,
                           originals: map<Control, A.Slot>, now: map<Control, A.Slot>, c: Control)
    requires Pictures(originals, entries)
    requires c in now && now[c].prefs == GroupOf(effective, c)
    ensures A.UserGroup(originals, now, c) == GroupOf(GlobalPreferences(entries, effective), c)
  {
    GlobalPreferencesByGroup(entries, effective, c);
    hide GroupOf, GlobalPreferences;
  }
}
