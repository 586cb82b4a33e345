// The vocabulary of Per-App Controls: the ten controls a profile may borrow, the targets it may
// ask for, and the saved preferences each control owns.
module Controls {
  datatype Policy = P0 | P4 | P7

  datatype Control =
    | Touch
    | Refresh
    | Gpu
    | CpuRange(policy: Policy)
    | CpuGovernor(policy: Policy)
    | CpuCores

  datatype Target =
    | TouchMode(mode: nat)
    | RefreshRate(hz: nat)
    | GpuProfile(profile: nat)
    | FrequencyRange(min: nat, max: nat)
    | Governor(name: string)
    | CoreMask(mask: nat)

  /** Which control-target pairs the adapter accepts; any other pair is refused without a write. */
  predicate Matches(c: Control, t: Target) {
    match c
    case Touch => t.TouchMode?
    case Refresh => t.RefreshRate?
    case Gpu => t.GpuProfile?
    case CpuRange(_) => t.FrequencyRange?
    case CpuGovernor(_) => t.Governor?
    case CpuCores => t.CoreMask?
  }

  /** The fields of the persisted state that belong to one control. */
  datatype Group =
    | Nothing
    | Number(n: int)
    | Pair(fst: int, snd: int)
    | Name(name: string)
    | GpuGroup(gpu: GpuFields)

  datatype GpuFields = GpuFields(
    perf: int, gpu: string, isolated: int, min: int, max: int,
    governor: string, gedBoost: int, uncap: int, powerPolicy: string)
}
