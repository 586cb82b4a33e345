# Rodin Essential: borrowing hardware settings and giving them back

Rodin Essential's daemon borrows hardware settings: it records what was there, changes it, and
gives it back, while writes fail, other writers interfere and the process may die between any two
steps. This project models that code and the code around it, and proves what it keeps.

Every step that can fail or be cut short (a journal save, a device write, a readback) is one atomic
step. Its outcome comes from a script that the theorems quantify over, so a theorem about "every
script" covers every pattern of failures and a death at every point. Where the daemon works on
objects, the model has two forms: a specification function on values, about which the theorems are
proved, and a class whose methods update the fields in place and loop as the daemon does, each
proved to have the effect of its specification.

| files | what they model |
|---|---|
| `Controls`, `ControlOrder`, `ControlKeys` | the ten controls a profile may borrow, their names and orders |
| `Preferences` | the user's saved preferences behind the effective ones |
| `Adapter`, `Ownership`, `Recovery`, `Answers`, `WriteBounds`, `Daemon` | per-app ownership over a write-ahead journal: one control, one transition, whole runs with restarts, what a request comes to, the number of writes, and the daemon's own form |
| `Profiles` | per-app profiles and the configuration as JSON trees |
| `CilSyntax`, `CilText`, `CilPolicy`, `CilException`, `CilLimits`, `CilRemap` | CIL reading and printing, any layout of a file, the meaning of `neverallow` and `typeattributeset`, the policy rewriting and where it goes wrong, and the renaming of labels |
| `PaletteSetting`, `PaletteTransaction`, `PaletteReport`, `PaletteService` | the theme setting, the optimistic transaction on it, and what it reports |
| `PaletteWire`, `PaletteCache` | the colour messages between daemon and app, and the app's single-flight cache |
| `RangeOrder`, `Clocks`, `ClockCommands`, `ClockService` | range writes, memory and storage clock sessions, and which commands they accept |
| `ServiceControl`, `ServiceAnswers`, `ServiceState` | service intent, first-seen originals, their release, and what a transition leaves on record |
| `Thermal` | borrowing the vendor's CPU thermal mode |
| `Bypass` | threshold bypass charging and its release band |
| `Pacing`, `Interpolation` | when the touch resampler injects a frame, and what it injects |
| `Strings`, `StateFile`, `StateReading`, `SettingsTable` | text helpers, the settings file, what its lines mean, and its table of keys |
| `Wrappers` | an optional value |

`dafny verify dfyconfig.toml` checks everything.

The meaning of a CIL policy follows the SELinux CIL Reference Guide, statements `neverallow`,
`typeattribute` and `typeattributeset`: a valuation says which types belong to which name, a policy
is satisfied when each declared type is itself and each declared attribute is the union of its sets,
and the policy forbids the accesses its `neverallow` statements cover.

## Where the code does not keep the promise

These are stated as lemmas; the code is modelled as it is.

- A restore that is cut short is safe if and only if its control has a journal entry
  (`Adapter.PutBackIsSafeWhenJournaled`, with an outcome that leaves some third value). Without one
  nothing on disk remembers the user's setting. The runs keep such controls in `stray`;
  `Recovery.RecoveryIsExact` says when a completed recovery still gives everything back.
- `check_global_command` looks only at journaled originals. While recovery is required a control can
  be held without a journal entry (`Recovery.HeldWithoutJournalHappens`); a user command for it is
  accepted and later undone (`Recovery.ChoiceWhileHeldIsLost`). `Recovery.ChoiceLasts` says exactly
  which accepted commands last, and `Recovery.ChoiceBeforeRecovery` says it of a command that comes
  before recovery has read the journal.
- A control that is held without a journal entry cannot be lent to the next app that asks for it: the
  change fails even when nothing else does, and gives the control back (`Answers.TransitionSucceeds`).
- Enabling the service clears the pending release before it saves the intent. If it stops between the
  two while a release is under way, the record says disabled with nothing owed although nodes are
  still changed (`ServiceControl.EnableWindow` gives the exact condition).
- `exception` takes a permission list for an enumeration. Its docstring promises that unrelated
  rights keep their restrictions; `CilException.ExactWhenEnumerated` says for exactly which lists it
  keeps that promise, `CilException.ExactDifference` what follows for a whole policy, and
  `CilLimits.OperatorListLosesMeaning` shows a rule that loses an unrelated right. The generated
  names must also be new to the policy (`CilLimits.TakenNameLosesException`).
- `remap` renames every atom. Labels that rename an operator, or rename a name to one, pass the
  tool's check and change what expressions mean; `CilRemap.RemapCommutesExactly` gives the exact
  condition.
- A clock original outside the driver's table can be captured but will never be restored
  (`Clocks.CaptureMayBeFinal`, `Clocks.RestoreIsExact`).
- An injected touch frame goes unrecognised when the kernel already holds the temporary marker value
  (`Interpolation.RecognisedAfterFilter`).

## Model

| member | source | states |
|---|---|---|
| ControlKeys.KeyRoundTrip | runtime/daemon-rust/src/app_runtime.rs:68-94 | A journal name maps back to a control exactly when it is that control's own name, for all ten controls |
| ControlOrder.WalkAll | runtime/daemon-rust/src/app_controls.rs:427-441 | Walking a map of controls visits every key exactly once |
| Preferences.CopyMovesOneGroup | runtime/daemon-rust/src/app_runtime.rs:95-130 | Copying a control's preferences moves that control's fields and no others |
| Preferences.GlobalPreferencesByGroup | runtime/daemon-rust/src/app_runtime.rs:131-145 | The user's preferences show the original for each journaled control and the effective value for every other, whatever the order of the walk |
| Preferences.BorrowingKeepsPreferences | runtime/daemon-rust/src/app_runtime.rs:131-145 | Journaling a control and then storing anything in its fields leaves the user's preferences unchanged, up to the thermal record |
| Preferences.ReturningKeepsPreferences | runtime/daemon-rust/src/app_runtime.rs:336-366 | Giving a control back and dropping its entry leaves the user's preferences unchanged |
| Preferences.OverlayIsUserGroup | runtime/daemon-rust/src/app_runtime.rs:131-145 | Control by control, the overlay of the ownership model is that of the saved preferences |
| Adapter.CaptureKeeps | runtime/daemon-rust/src/app_runtime.rs:216-242 | A capture writes nothing and its token is the true original, never an override of an earlier app |
| Adapter.JournalKeeps | runtime/daemon-rust/src/app_runtime.rs:169-174 | A journal write either replaces memory and disk together or changes neither, and keeps every loan backed |
| Adapter.ProgramKeeps | runtime/daemon-rust/src/app_runtime.rs:258-281 | Programming touches one journaled control; on success it holds its target; failure or death leaves its journal entry |
| Adapter.ApplyKeeps | runtime/daemon-rust/src/app_runtime.rs:243-282 | A control is never programmed before its original is durable; on success it holds its target; every other control is left alone |
| Adapter.PutBackKeeps | runtime/daemon-rust/src/app_runtime.rs:283-361 | A restore write touches one control and, when it succeeds, gives back both its setting and its preferences |
| Adapter.PutBackIsSafeWhenJournaled | runtime/daemon-rust/src/app_runtime.rs:283-368 | Finding: giving a borrowed control back is crash safe under every outcome, also cut short, if and only if the control has a journal entry |
| Adapter.RestoreKeeps | runtime/daemon-rust/src/app_runtime.rs:283-368 | A successful restore gives the control back and drops its entry; a failed one keeps the entry and leaves all other controls alone |
| Ownership.CapturePhase | runtime/daemon-rust/src/app_controls.rs:412-426 | All originals are read before any write, and taking them into the baseline borrows nothing yet |
| Ownership.ReleasePhase | runtime/daemon-rust/src/app_controls.rs:427-440 | Everything the new profile does not name is given back before anything new is applied |
| Ownership.ApplyPhase | runtime/daemon-rust/src/app_controls.rs:441-451 | When all applies succeed every control shows the target asked for |
| Ownership.RollbackKeeps | runtime/daemon-rust/src/app_controls.rs:458-483 | A rollback keeps every loan backed, reports global only when nothing is left borrowed, and never leaves the status active |
| Ownership.AdvanceKeeps | runtime/daemon-rust/src/app_controls.rs:412-451 | The three phases together keep every loan backed and, on success, show exactly the targets |
| Ownership.TransitionKeeps | runtime/daemon-rust/src/app_controls.rs:391-456 | Whatever fails or dies, the ownership invariant holds afterwards; on success the device equals the originals overridden by exactly the current targets, whatever came before; an error never leaves the status active |
| Ownership.ReconcileKeeps | runtime/daemon-rust/src/app_controls.rs:391-483 | One foreground change with an adapter of its own keeps the invariant; on success the device equals the originals overridden by exactly its targets |
| Ownership.EveryRunOwns | runtime/daemon-rust/src/app_controls.rs:391-483 | Over every run of foreground changes with any failures, also after an unfinished restore without a journal entry: every baseline token is the true original, unborrowed controls hold theirs, applied, journaled and held controls are nested and equal outside recovery, the status tells the truth, and a change that succeeds leaves the originals overridden by exactly its targets |
| Answers.TransitionAnswers | runtime/daemon-rust/src/app_controls.rs:391-456 | A successful foreground change answers its request field by field: a disabled service, disabled profiles, no app, no profile, a disabled profile or an empty one leaves nothing borrowed and the status global; any other request leaves the app active with exactly its profile in force |
| Answers.EveryRunAnswers | runtime/daemon-rust/src/app_controls.rs:391-456 | The same of the last of any number of foreground changes, whatever the others did |
| Answers.ForegroundAnswers | runtime/daemon-rust/src/app_controls.rs:391-456 | The same of a foreground change anywhere in a run with deaths, restarts and user commands, and without failures it succeeds outside recovery |
| Answers.TransitionSucceeds | runtime/daemon-rust/src/app_controls.rs:391-456 | Without failures a foreground change succeeds if and only if every control it asks for that is held is journaled; outside recovery it always succeeds |
| Answers.RecoverSucceeds | runtime/daemon-rust/src/app_runtime.rs:924-941 | Without failures a recovery completes |
| Answers.ChooseSucceeds | runtime/daemon-rust/src/app_runtime.rs:862-893 | Without failures a user command for a control that is not journaled sets the device and the saved preference |
| Answers.ChooseRefused | runtime/daemon-rust/src/app_runtime.rs:862-893 | A user command for a journaled control changes nothing |
| Answers.SaveSucceeds | runtime/daemon-rust/src/lib.rs:3323-3328 | Without failures a save writes the original's preferences for a journaled control and the effective ones for any other |
| WriteBounds.RollbackTries | runtime/daemon-rust/src/app_controls.rs:458-473 | A rollback tries to give back every control that is held, whatever happens to the others |
| WriteBounds.TransitionWrites | runtime/daemon-rust/src/app_controls.rs:406-411 | One transition starts at most two writes on a control, and none when the targets are already in force |
| WriteBounds.AdvanceWrites | runtime/daemon-rust/src/app_controls.rs:427-451 | Before any rollback each control is written at most once |
| Recovery.RecoverKeeps | runtime/daemon-rust/src/app_runtime.rs:924-941 | Recovery is safe to fail in, to die in and to repeat; when it completes every control is the user's own and the journal is empty |
| Recovery.RecoveryIsExact | runtime/daemon-rust/src/app_runtime.rs:924-941 | After any death, a completed recovery gives everything back if and only if every control without a journal entry was already as the user set it |
| Recovery.SaveWritesUser | runtime/daemon-rust/src/lib.rs:3323-3328 | A save in the middle of any loans writes exactly the user's own preferences for every control that is not astray |
| Recovery.ChooseEffect | runtime/daemon-rust/src/lib.rs:3414-3428 | A user command changes only its own control's saved preferences, and only once saved |
| Recovery.StepSound | runtime/daemon-rust/src/app_runtime.rs:711-739 | Every foreground change, recovery, save, user command, death and restart keeps the machine sound, whether or not controls went astray |
| Recovery.EveryRunIsCrashSafe | runtime/daemon-rust/src/app_runtime.rs:243-368 | Over every run with failures and deaths between any two steps, also during recovery, a control that differs from the user's setting has a durable entry holding that setting, except for a control that itself went astray |
| Recovery.UntendedSound | runtime/daemon-rust/src/app_runtime.rs:942-990 | The invariant holds of a first start, so the theorem on runs is about reachable states |
| Recovery.IndicesAgree | runtime/daemon-rust/src/app_controls.rs:367-371 | Applied targets, journaled originals and held originals are nested, and equal outside recovery, at every point of every run; active, global and empty agree |
| Recovery.ForegroundShowsTargets | runtime/daemon-rust/src/app_controls.rs:391-456 | A successful foreground change anywhere in a run shows exactly the requested targets over the settings the daemon goes by, which are the user's own for every control that never went astray |
| Recovery.ChoiceWhileHeldIsLost | runtime/daemon-rust/src/app_runtime.rs:862-893 | Finding: a command accepted for a held but unjournaled control happens only while recovery is required and is undone by the next transition that does not want it |
| Recovery.ChoiceLasts | runtime/daemon-rust/src/app_runtime.rs:862-893 | Finding: an accepted command outlives the next successful change that does not want its control if and only if the control is not held, or the command asked for what is held |
| Recovery.ChoiceBeforeRecovery | runtime/daemon-rust/src/app_runtime.rs:862-893 | Finding: a command accepted before recovery has read the journal outlives a completed recovery if and only if the journal does not name its control, or it asked for what the journal holds |
| Recovery.HeldWithoutJournalHappens | runtime/daemon-rust/src/app_controls.rs:458-477 | Finding: a failed journal write followed by a failed restore leaves a control held without a journal entry |
| Daemon.Adapter.Capture | runtime/daemon-rust/src/app_runtime.rs:216-242 | Captures one original under the overlay of journaled ones; state and result are those of the specification step |
| Daemon.Adapter.WriteJournal | runtime/daemon-rust/src/app_runtime.rs:169-174 | Replaces the journal on disk, then in memory; state and result are those of the specification step |
| Daemon.Adapter.Apply | runtime/daemon-rust/src/app_runtime.rs:243-282 | Journals first, then programs; state and result are those of the specification step |
| Daemon.Adapter.Program | runtime/daemon-rust/src/app_runtime.rs:258-281 | One device write with its preferences; state and result are those of the specification step |
| Daemon.Adapter.Restore | runtime/daemon-rust/src/app_runtime.rs:283-368 | Gives back, then drops the entry; state and result are those of the specification step |
| Daemon.Adapter.PutBack | runtime/daemon-rust/src/app_runtime.rs:283-361 | One restore write; state and result are those of the specification step |
| Daemon.Adapter.Recover | runtime/daemon-rust/src/app_runtime.rs:924-941 | Reads the journal and gives everything back, stopping at the first failure; state and result are those of the specification step; and for whatever the user's settings are, a recovery keeps what is needed to recover, and one that completes leaves every control the user's own and an empty journal |
| Daemon.Adapter.RestoreNames | runtime/daemon-rust/src/app_runtime.rs:937-939 | Restores the listed entries in turn, stopping at the first failure |
| Daemon.Ownership.constructor | runtime/daemon-rust/src/app_controls.rs:373-380 | Starts with nothing held |
| Daemon.Ownership.Transition | runtime/daemon-rust/src/app_controls.rs:391-456 | One foreground change on the fields in place; fields, hardware and result equal the specification; and for whatever the user's settings are, the invariant is kept, success leaves exactly the targets over them, and an error never leaves the status active |
| Daemon.Ownership.Advance | runtime/daemon-rust/src/app_controls.rs:412-451 | The three phases in order; fields, hardware and result equal the specification |
| Daemon.Ownership.CaptureMissing | runtime/daemon-rust/src/app_controls.rs:414-425 | Captures what is not held yet, stopping at the first failure; fields, hardware and result equal the specification |
| Daemon.Ownership.Release | runtime/daemon-rust/src/app_controls.rs:427-440 | Restores what is no longer wanted, stopping at the first failure; fields, hardware and result equal the specification |
| Daemon.Ownership.ApplyEach | runtime/daemon-rust/src/app_controls.rs:441-451 | Applies each target not already in force; fields, hardware and result equal the specification |
| Daemon.Ownership.Rollback | runtime/daemon-rust/src/app_controls.rs:458-483 | Restores everything and settles the status; fields, hardware and result equal the specification |
| Daemon.Ownership.RestoreEach | runtime/daemon-rust/src/app_controls.rs:463-473 | Tries every restore and reports whether all succeeded; fields, hardware and result equal the specification |
| Profiles.ReadProfile | runtime/daemon-rust/src/app_controls.rs:144-217 | Reads a profile field by field, stopping at the first invalid one; equals the specification |
| Profiles.WriteProfile | runtime/daemon-rust/src/app_controls.rs:219-251 | Builds the profile object by inserting each control; equals the specification |
| Profiles.ParsedIsValid | runtime/daemon-rust/src/app_controls.rs:144-217 | Every profile that is read holds only allowed targets |
| Profiles.ProfileRoundTrip | runtime/daemon-rust/src/app_controls.rs:144-251 | Every profile with allowed targets is read back from what it writes |
| Profiles.ConfigRoundTrip | runtime/daemon-rust/src/app_controls.rs:255-291 | Every valid configuration is read back from what it writes, whatever order its apps are listed in |
| Profiles.TargetExactly | runtime/daemon-rust/src/app_controls.rs:144-217 | Which JSON values are read for each control, and that each is read as the target it is written from |
| Profiles.ProfileExactly | runtime/daemon-rust/src/app_controls.rs:144-217 | A profile is read exactly when it has known fields only and every entry fits its control; the switch and the controls are then those given |
| Profiles.UnknownFieldsRefused | runtime/daemon-rust/src/app_controls.rs:144-217 | An unknown field at any level makes a profile unreadable |
| Profiles.NullIsAbsent | runtime/daemon-rust/src/app_controls.rs:144-217 | A null entry reads as none |
| Profiles.ParsedConfigIsValid | runtime/daemon-rust/src/app_controls.rs:255-285 | Every configuration that is read is valid, within the profile limit |
| CilSyntax.ParseTokens | tools/merge-unpacked-rom-policy.py:18-38 | The stack loop over tokens; equals the recursive specification |
| CilSyntax.ParseAccepts | tools/merge-unpacked-rom-policy.py:18-38 | Parsing succeeds exactly on token lists that are balanced with no atom outside a list, and the forest flattens to those tokens |
| CilSyntax.RoundTrip | tools/merge-unpacked-rom-policy.py:18-42 | Any forest of lists with word or quoted atoms is read back from its rendering |
| CilText.CommentLineParses | tools/merge-unpacked-rom-policy.py:19-22 | Whatever follows, a comment line parses as if it were not there |
| CilText.LayoutParses | tools/merge-unpacked-rom-policy.py:19-38 | A text is parsed by its tokens alone: for any tokens, balanced or not, with any white space and comments before, between and after them |
| CilText.AnyLayoutIsRead | tools/merge-unpacked-rom-policy.py:19-42 | However a forest is laid out, with any spacing and comments at any depth, it is read back |
| CilPolicy.RewriteAll | tools/merge-unpacked-rom-policy.py:45-76 | The rewriting loop; output and count equal the recursive specification |
| CilPolicy.ExceptionAppends | tools/merge-unpacked-rom-policy.py:51-76 | Statements keep their order, unrewritten ones stand for themselves, and the count is the number of rewritten rules |
| CilException.ReplacementForbids | tools/merge-unpacked-rom-policy.py:65-75 | The statements that replace one rule forbid what it forbade except the two rights for the daemon |
| CilException.ExceptionPreservesMeaning | tools/merge-unpacked-rom-policy.py:45-76 | Given undeclared generated names and permission lists of the rewritten rules that treat the two rights as names, a model of the output satisfies the input, and an access stays forbidden exactly when some statement other than a rewritten rule forbids it or it is not an exempt one |
| CilException.ExactDifference | tools/merge-unpacked-rom-policy.py:45-76 | When the permission list of every top-level capability rule treats the two rights as names, the output forbids exactly what the input forbids, less the daemon's sys_ptrace and dac_override from top-level capability rules |
| CilException.PlainEnumerates | tools/merge-unpacked-rom-policy.py:61-66 | A list without operators is one of those lists |
| CilException.ExactWhenEnumerated | tools/merge-unpacked-rom-policy.py:45-76 | Finding: every capability rule with a permission list loses exactly the exempt accesses if and only if the list treats the two rights as names |
| CilException.EveryModelExtends | tools/merge-unpacked-rom-policy.py:68-75 | Every model of the input extends to a model of the output, so the rewriting adds no contradiction and loses no model |
| CilException.ExceptionRoundTrip | tools/merge-unpacked-rom-policy.py:45-76 | The rewritten policy, written out, is read back as the rewritten policy |
| CilLimits.OperatorListLosesMeaning | tools/merge-unpacked-rom-policy.py:61-67 | Finding: a rule whose permission list uses an operator stops forbidding a right that has nothing to do with the two |
| CilLimits.OperatorsInLists | tools/merge-unpacked-rom-policy.py:61-66 | A complement and a list with all are not read as they mean; an operator word later in a list is harmless |
| CilLimits.TakenNameLosesException | tools/merge-unpacked-rom-policy.py:68-75 | Finding: where a statement compiled with the policy already extends the first generated attribute, an exempt access of the daemon stays forbidden |
| CilException.NamesDiffer | tools/merge-unpacked-rom-policy.py:68-69 | Generated names are distinct |
| CilRemap.RemapSubstitutes | tools/merge-unpacked-rom-policy.py:84-86 | When no operator is renamed, a renamed expression means what the original means when names are looked up under their new ones |
| CilRemap.RemapCommutesExactly | tools/merge-unpacked-rom-policy.py:84-86 | Finding: renaming keeps the meaning of every expression if and only if no operator is renamed and nothing else is renamed to one, which the check of labels does not ask |
| CilRemap.RemapRoundTrip | tools/merge-unpacked-rom-policy.py:84-86 | A remapped forest still renders and reads back as itself |
| PaletteSetting.HexRoundTrip | runtime/daemon-rust/src/system_colors.rs:394-405 | Hexadecimal digits are read back as the number they print, at any width |
| PaletteSetting.RgbRoundTrip | runtime/daemon-rust/src/system_colors.rs:394-405 | A six-digit colour is read back as the colour it prints |
| PaletteSetting.NextKeepsRest | runtime/daemon-rust/src/system_colors.rs:451-482 | A selection changes nothing outside the eight colour keys |
| PaletteSetting.MatchesByColors | runtime/daemon-rust/src/system_colors.rs:491-507 | Recognition depends on the colour fields alone |
| PaletteSetting.SelectionRecognised | runtime/daemon-rust/src/system_colors.rs:451-507 | Every accepted selection is recognised in its own result and in anything with the same colours |
| PaletteTransaction.AttemptEffect | runtime/daemon-rust/src/system_colors.rs:618-661 | The attempt makes one write, and succeeds only after two equal consecutive samples with the colours still in place |
| PaletteTransaction.RollbackEffect | runtime/daemon-rust/src/system_colors.rs:573-590 | A rollback never overwrites another picker's colours, and when it succeeds the attempted colours are gone |
| PaletteTransaction.TransactionIsSafe | runtime/daemon-rust/src/system_colors.rs:592-667 | At most two writes, each agreeing with the latest reading outside the colour keys; after any failure but a failed restore the attempted colours are gone: the colour fields are the original ones, or what is stored is another picker's, or what the failed write itself left |
| PaletteTransaction.FailureIsUndone | runtime/daemon-rust/src/system_colors.rs:573-667 | After a failed attempt and a rollback that succeeds: the original colour fields, another picker's setting, or what the failed write left |
| PaletteReport.ApplyToReports | runtime/daemon-rust/src/system_colors.rs:592-667 | A transaction that succeeds reports what was asked for: mode one with the colour, and the style once written or on Android 13, for a custom palette; mode zero for the wallpaper; outcome zero exactly when nothing was written, else one exactly when the native colours changed |
| PaletteReport.ApplyToExactly | runtime/daemon-rust/src/system_colors.rs:592-667 | Without failures and other pickers a transaction succeeds if and only if the two samples before agree, and the selection is in force already or the colours settle within eight samples |
| PaletteReport.ApplyToRefuses | runtime/daemon-rust/src/system_colors.rs:437-450 | A selection that is not accepted, or a ROM without the engine, changes nothing |
| PaletteReport.MalformedIsLeft | runtime/daemon-rust/src/system_colors.rs:418-429 | A stored setting that is no object is reported and left as it is |
| PaletteReport.DescribedAsShown | runtime/daemon-rust/src/system_colors.rs:509-551 | Mode, colour and style that any setting is described with |
| PaletteReport.AppliedIsShown | runtime/daemon-rust/src/system_colors.rs:95-112 | What the app reads after a successful transaction is the mode, colour, style and outcome of the selection |
| PaletteReport.AcceptedExactly | runtime/daemon-rust/src/system_colors.rs:437-450 | Which colours and styles are accepted on which Android version |
| PaletteReport.CustomWrites | runtime/daemon-rust/src/system_colors.rs:451-482 | What is stored for a custom palette before and from Android 13 on |
| PaletteReport.WallpaperWrites | runtime/daemon-rust/src/system_colors.rs:451-482 | What is stored for the wallpaper |
| PaletteReport.MatchesExactly | runtime/daemon-rust/src/system_colors.rs:491-507 | When a setting shows a selection already |
| PaletteSetting.RgbExactly | runtime/daemon-rust/src/system_colors.rs:394-405 | Which hexadecimal texts are colours: six digits, or eight with a full alpha, after a number sign, a zero-x or neither |
| PaletteSetting.DigitCases | runtime/daemon-rust/src/system_colors.rs:394-405 | Hexadecimal digits are read in either case |
| PaletteTransaction.MatchingWritesNothing | runtime/daemon-rust/src/system_colors.rs:601-613 | A selection already in force writes nothing |
| PaletteTransaction.ApplyingTwiceWritesOnce | runtime/daemon-rust/src/system_colors.rs:592-667 | Applying a selection again to its own result writes nothing |
| PaletteService.PaletteIo.SettledBefore | runtime/daemon-rust/src/system_colors.rs:563-571 | Two equal samples before anything is changed; state and result equal the specification |
| PaletteService.PaletteIo.Settle | runtime/daemon-rust/src/system_colors.rs:624-641 | The bounded sampling loop; state and result equal the specification |
| PaletteService.PaletteIo.Rollback | runtime/daemon-rust/src/system_colors.rs:573-590 | Reads, compares, and puts the colour keys back; state and result equal the specification |
| PaletteService.PaletteIo.Attempt | runtime/daemon-rust/src/system_colors.rs:618-661 | Write, readback, settle, readback; state and result equal the specification |
| PaletteService.PaletteIo.ApplyTo | runtime/daemon-rust/src/system_colors.rs:592-667 | The whole transaction; state and result equal the specification; at most two writes on what was last read, a failure is undone, and success reports the mode, colour, style and outcome asked for |
| PaletteWire.ParseFields | runtime/host-rust/src/backend_bridge.rs:1230-1260 | The two loops of the response parser; result equals the specification |
| PaletteWire.ResponseRoundTrip | runtime/host-rust/src/backend_bridge.rs:1230-1260 | Whatever order the fields are sent in, the app reads exactly the values that were sent |
| PaletteWire.PaletteRoundTrip | runtime/daemon-rust/src/system_colors.rs:95-112 | A palette the daemon encodes is accepted exactly when each field is in the range the app asks for, and is then read back field by field |
| PaletteWire.DescribedIsAccepted | runtime/daemon-rust/src/system_colors.rs:509-551 | Whatever the daemon describes on Android 12 or newer is accepted as it is |
| PaletteWire.ContrastRoundTrip | runtime/host-rust/src/backend_bridge.rs:1271-1296 | The same for contrast |
| PaletteWire.ResponseExactly | runtime/host-rust/src/backend_bridge.rs:1230-1260 | A response is accepted exactly when no key is repeated and every field is given a number in its range |
| PaletteCache.ClientStepKeeps | runtime/host-rust/src/backend_bridge.rs:1896-1914 | A submission takes, hands over or gives back its claim at each atomic step without losing or doubling it |
| PaletteCache.StepKeeps | runtime/host-rust/src/backend_bridge.rs:1335-1373 | Every step of every client and of the worker keeps one holder per busy group, the accounts, whole values and matching codes |
| PaletteCache.ValuesMoveOnlyWhileBusy | runtime/host-rust/src/backend_bridge.rs:1353-1358 | Values change only while the group is busy |
| PaletteCache.EveryRunIsSingleFlight | runtime/host-rust/src/backend_bridge.rs:1335-1373 | For any number of clients and any interleaving: at most one accepted operation outstanding, accepted equals finished plus outstanding, and a group that is not busy shows exactly one complete response, its revision count and a matching code |
| PaletteCache.WorkerPerforms | runtime/host-rust/src/backend_bridge.rs:1335-1373 | The worker's atomic steps, run together, have the effect of one operation |
| PaletteCache.WorkerFails | runtime/host-rust/src/backend_bridge.rs:1335-1373 | The worker's steps for a failing operation keep its code and move no value |
| PaletteCache.RevisionIs32Bit | runtime/host-rust/src/backend_bridge.rs:1335-1373 | The revision is the number of finished operations as a 32-bit counter |
| PaletteCache.Cache.Perform | runtime/host-rust/src/backend_bridge.rs:1335-1373 | One operation on the atomics with its storing loop; final contents as specified |
| PaletteCache.SubmissionSteps | runtime/host-rust/src/backend_bridge.rs:1896-1914 | Against any interleaving of the others, a submission is queued exactly when the group was free, was still so at the compare-exchange, and the channel took it |
| PaletteCache.Cache.Submit | runtime/host-rust/src/backend_bridge.rs:1896-1914 | Claims an idle group unless another client wins the compare-exchange, and gives the claim back when the operation is not accepted |
| RangeOrder.EveryWriteStaysOrdered | runtime/daemon-rust/src/subsystem_clocks.rs:133-144 | The three orders in which ranges are written keep minimum and maximum ordered at every intermediate write and end at the target |
| RangeOrder.Cluster.Try | runtime/daemon-rust/src/lib.rs:1690-1709 | One attempt on a CPU cluster goes through exactly the ordered ranges of its order |
| RangeOrder.Cluster.Apply | runtime/daemon-rust/src/lib.rs:1688-1719 | Up to four attempts against a vendor: every range ever shown is ordered, success means exactly the requested range, and an undisturbed first attempt succeeds |
| Clocks.RangeWriteStaysOrdered | runtime/daemon-rust/src/subsystem_clocks.rs:133-149 | Wherever a devfreq range write stops, the device shows one of the ordered ranges of its order |
| ServiceControl.ReleaseStaysOrdered | runtime/daemon-rust/src/lib.rs:6285-6336 | While a release gives the originals back, wherever it stops, no frequency range is crossed |
| RangeOrder.NoFixedOrderWorks | runtime/daemon-rust/src/lib.rs:1692-1703 | Neither fixed order of the two writes works for all ranges; each fails exactly when stated |
| Clocks.CaptureKeeps | runtime/daemon-rust/src/subsystem_clocks.rs:368-378 | The first capture is the OEM range, durable before the first write |
| Clocks.RestoreOneKeeps | runtime/daemon-rust/src/subsystem_clocks.rs:201-240 | A restore that succeeds gives both bounds back and forgets the session; one that fails keeps the journal entry |
| Clocks.LevelKeeps | runtime/daemon-rust/src/subsystem_clocks.rs:330-388 | A successful lock is one the driver advertises, under the captured ceiling; any failure leaves the session journaled or restored |
| Clocks.TrialKeeps | runtime/daemon-rust/src/subsystem_clocks.rs:389-425 | A trial starts only on an idle device, raises only the floor, to the highest state and under the ceiling in force before any session, and gets a deadline |
| Clocks.OemKeeps | runtime/daemon-rust/src/subsystem_clocks.rs:317-329 | OEM reset gives both captured bounds back, leaves the other device alone and reopens the latch |
| Clocks.RestoreAllKeeps | runtime/daemon-rust/src/subsystem_clocks.rs:241-252 | A complete reset leaves both devices at their OEM bounds and nothing on record |
| Clocks.ExpireKeeps | runtime/daemon-rust/src/subsystem_clocks.rs:280-292 | Expiry restores the due trials and keeps the journal entry of any it cannot restore |
| Clocks.RestartKeeps | runtime/daemon-rust/src/subsystem_clocks.rs:253-275 | A restart restores what the journal holds, or latches |
| Clocks.StepKeeps | runtime/daemon-rust/src/subsystem_clocks.rs:313-425 | Every command, expiry and restart keeps the session invariant |
| Clocks.EveryRunKeeps | runtime/daemon-rust/src/subsystem_clocks.rs:171-304 | Over every run with failures and deaths: journal equals originals, deadlines and targets are disjoint parts of them, and every device off its OEM range has that range on durable record |
| Clocks.UnreadableJournalBlocks | runtime/daemon-rust/src/subsystem_clocks.rs:263-275 | A journal that cannot be read blocks every write until a restart |
| Clocks.RestoreIsExact | runtime/daemon-rust/src/subsystem_clocks.rs:201-240 | Without failures a captured range is restored if and only if it lies within the driver's table |
| ClockCommands.LevelAnswers | runtime/daemon-rust/src/subsystem_clocks.rs:330-388 | A lock succeeds only with the service enabled, no failure outstanding and bounds the driver advertises in order under the ceiling; any other request leaves device, journal and session as they were |
| ClockCommands.LevelSucceeds | runtime/daemon-rust/src/subsystem_clocks.rs:330-388 | Without failures every such request succeeds |
| ClockCommands.LevelFails | runtime/daemon-rust/src/subsystem_clocks.rs:379-384 | A lock that fails leaves the device as it was, or gives it back and forgets the session, or closes the latch |
| ClockCommands.TrialAnswers | runtime/daemon-rust/src/subsystem_clocks.rs:389-405 | A trial is refused, changing nothing, unless the device is idle and the driver allows it |
| ClockCommands.TrialExactly | runtime/daemon-rust/src/subsystem_clocks.rs:389-423 | Without failures a trial starts if and only if the ceiling admits the highest state |
| ClockCommands.ExpireAnswers | runtime/daemon-rust/src/subsystem_clocks.rs:276-292 | A device whose deadline has passed is restored and forgotten, or keeps its record while the latch closes; every other device is left alone |
| ClockCommands.ExpireSucceeds | runtime/daemon-rust/src/subsystem_clocks.rs:276-292 | Without failures every device whose deadline has passed is restored and no latch closes |
| ClockCommands.RestoreAllSucceeds | runtime/daemon-rust/src/subsystem_clocks.rs:241-252 | Without failures a complete reset succeeds |
| ClockCommands.RestartSucceeds | runtime/daemon-rust/src/subsystem_clocks.rs:253-275 | Without failures a restart gives back everything the journal holds |
| ClockCommands.RestartUnreadable | runtime/daemon-rust/src/subsystem_clocks.rs:253-275 | An unreadable journal closes the latch and touches nothing |
| Clocks.CaptureMayBeFinal | runtime/daemon-rust/src/subsystem_clocks.rs:368-378 | Finding: a capture takes whatever bounds it finds, and some future restores it if and only if they lie within the table in order |
| ClockService.Trials.WriteRange | runtime/daemon-rust/src/subsystem_clocks.rs:133-149 | The range write in its safe order with readback; fields and result equal the specification |
| ClockService.Trials.RestoreOne | runtime/daemon-rust/src/subsystem_clocks.rs:201-240 | One restore; fields and result equal the specification |
| ClockService.Trials.RestoreAll | runtime/daemon-rust/src/subsystem_clocks.rs:241-252 | Both restores; fields and result equal the specification |
| ClockService.Trials.Capture | runtime/daemon-rust/src/subsystem_clocks.rs:368-378 | First capture; fields and result equal the specification |
| ClockService.Trials.Record | runtime/daemon-rust/src/subsystem_clocks.rs:371-377 | Journals a capture, taking it back if the save fails; fields and result equal the specification |
| ClockService.Trials.Admit | runtime/daemon-rust/src/subsystem_clocks.rs:362-367 | Checks a request before anything is written; fields and result equal the specification; success means the driver advertises both bounds in order |
| ClockService.Trials.Level | runtime/daemon-rust/src/subsystem_clocks.rs:330-388 | A lock; fields and result equal the specification; the session invariant is kept, the other device is left alone, success shows bounds the driver advertises under the OEM ceiling, and a request for others changes nothing |
| ClockService.Trials.Lock | runtime/daemon-rust/src/subsystem_clocks.rs:379-386 | Applies a lock, restoring when it fails; fields and result equal the specification |
| ClockService.Trials.ApplyMax | runtime/daemon-rust/src/subsystem_clocks.rs:150-166 | Raises the floor to the highest state; fields and result equal the specification |
| ClockService.Trials.Time | runtime/daemon-rust/src/subsystem_clocks.rs:415-423 | Applies a trial and gives it a deadline; fields and result equal the specification |
| ClockService.Trials.Trial | runtime/daemon-rust/src/subsystem_clocks.rs:389-425 | A timed trial; fields and result equal the specification |
| ClockService.Trials.Oem | runtime/daemon-rust/src/subsystem_clocks.rs:317-329 | OEM reset of one device; fields and result equal the specification; the session invariant is kept, the other device is left alone, and success gives both OEM bounds back |
| ClockService.Trials.Expire | runtime/daemon-rust/src/subsystem_clocks.rs:280-292 | Collects and restores due trials; fields and result equal the specification; a device whose deadline has passed is restored or latched, and every other left alone |
| ClockService.Trials.RestoreExpired | runtime/daemon-rust/src/subsystem_clocks.rs:286-292 | Restores the listed trials, latching on each failure; fields and result equal the specification |
| ServiceAnswers.DisableMeans | runtime/daemon-rust/src/lib.rs:6446-6453 | A disable that succeeds leaves the record disabled with nothing owed, configured as before, with all originals and, if the service was on, the palettes to resume |
| ServiceAnswers.DisableReturns | runtime/daemon-rust/src/lib.rs:6446-6453 | A disable that succeeds has every recorded node at its first-seen value |
| ServiceAnswers.DisableSucceeds | runtime/daemon-rust/src/lib.rs:6446-6453 | Without failures a disable completes |
| ServiceAnswers.EnableMeans | runtime/daemon-rust/src/lib.rs:6436-6443 | An enable that succeeds sets the intent, clears the release flag and touches no node |
| ServiceAnswers.EnableSucceeds | runtime/daemon-rust/src/lib.rs:6436-6443 | Without failures an enable completes |
| ServiceAnswers.BootReads | runtime/daemon-rust/src/lib.rs:4929-4937 | Without a release under way a restart only reads the record |
| ServiceAnswers.BootFinishes | runtime/daemon-rust/src/lib.rs:4929-4937 | Without failures a restart finishes the release it finds |
| ServiceAnswers.WriteSucceeds | runtime/daemon-rust/src/service_control.rs:299-313 | Without failures a write takes effect with the first value on record |
| ServiceAnswers.RestoringWritesOnly | runtime/daemon-rust/src/service_control.rs:299-313 | While originals are given back a write records nothing |
| ServiceAnswers.RememberFirst | runtime/daemon-rust/src/service_control.rs:154-171 | A value is noted once only, and not while originals are given back |
| ServiceAnswers.OpenRangesOpen | runtime/daemon-rust/src/lib.rs:6285-6312 | A complete first pass has every recorded lower end at its original |
| ServiceAnswers.PutBackAppends | runtime/daemon-rust/src/lib.rs:6313-6336 | Later nodes are given back whatever became of earlier ones |
| ServiceAnswers.ReleaseReports | runtime/daemon-rust/src/lib.rs:6178-6377 | A release whose first step or opening pass failed is not reported as done |
| ServiceControl.StoreKeeps | runtime/daemon-rust/src/service_control.rs:113-126 | A save either lands or is taken back in memory |
| ServiceControl.WriteKeeps | runtime/daemon-rust/src/service_control.rs:299-313 | A reversible node is never written outside restoration before its first-seen value is durable |
| ServiceControl.UnjournaledMaxFits | runtime/daemon-rust/src/lib.rs:6285-6312 | An upper bound that was never recorded still admits the recorded lower bound, so opening a range never touches it |
| ServiceControl.OpenRangesKeeps | runtime/daemon-rust/src/lib.rs:6285-6312 | Opening ranges before the restore writes only journaled nodes |
| ServiceControl.PutBackAllKeeps | runtime/daemon-rust/src/lib.rs:6313-6336 | A restore pass without failures leaves every journaled node at its original, whatever the order |
| ServiceControl.RestoreReleasedKeeps | runtime/daemon-rust/src/lib.rs:6178-6377 | A restore that reports success has put every journaled node back |
| ServiceControl.WithdrawKeeps | runtime/daemon-rust/src/lib.rs:6449-6453 | At every crash point of a disable, disabled on disk implies a pending release or all journaled nodes back |
| ServiceControl.DisableKeeps | runtime/daemon-rust/src/lib.rs:6446-6453 | The whole disable keeps that promise and, on success, owes nothing |
| ServiceControl.StartOverKeeps | runtime/daemon-rust/src/lib.rs:6454-6459 | A reset drops the originals only after every node is back |
| ServiceControl.ResetKeeps | runtime/daemon-rust/src/lib.rs:6428-6461 | A complete reset ends enabled, unconfigured, with no originals and nothing owed |
| ServiceControl.EnableKeeps | runtime/daemon-rust/src/lib.rs:6436-6443 | Enabling keeps the promise when it completes, or when no release was under way |
| ServiceControl.EnableWindow | runtime/daemon-rust/src/lib.rs:6436-6443 | Finding: enabling keeps the promise at every step exactly when no release is under way |
| ServiceControl.BootKeeps | runtime/daemon-rust/src/lib.rs:4929-4937 | A restart finishes a release that was under way; clearing the flag means every node is back |
| ServiceControl.ReleaseEarlyKeeps | runtime/daemon-rust/src/lib.rs:2687-2736 | Touch entries are forgotten only after their nodes have been read back at their originals |
| ServiceControl.FirstStartHolds | runtime/daemon-rust/src/service_control.rs:35-76 | A first start satisfies the invariant of the runs |
| ServiceControl.StepKeeps | runtime/daemon-rust/src/service_control.rs:113-247 | Every event keeps the journal true and the promise kept |
| ServiceControl.EveryRunKeeps | runtime/daemon-rust/src/service_control.rs:113-313 | Over every run with failures and deaths: a node off its first-seen value has that value on durable record, memory equals the record, and disabled on disk means owed or back |
| ServiceState.Service.Save | runtime/daemon-rust/src/service_control.rs:78-101 | Replaces the file; state and result equal the specification |
| ServiceState.Service.SaveIntent | runtime/daemon-rust/src/service_control.rs:113-126 | Sets the intent; state and result equal the specification, and memory equals the record after success and failure alike |
| ServiceState.Service.SavePending | runtime/daemon-rust/src/service_control.rs:137-148 | Sets the release flag; state and result equal the specification, and memory equals the record after success and failure alike |
| ServiceState.Service.RememberOriginal | runtime/daemon-rust/src/service_control.rs:154-171 | First capture wins; skipped while restoring; state and result equal the specification, and memory equals the record after success and failure alike |
| ServiceState.Service.ReplaceOriginal | runtime/daemon-rust/src/service_control.rs:191-208 | Replaces an entry, putting the previous one back if the save fails; state and result equal the specification, and memory equals the record after success and failure alike |
| ServiceState.Service.Clear | runtime/daemon-rust/src/service_control.rs:222-232 | Empties the journal; state and result equal the specification, and memory equals the record after success and failure alike |
| ServiceState.Service.ForgetOriginals | runtime/daemon-rust/src/service_control.rs:234-247 | Drops the listed entries; state and result equal the specification, and memory equals the record after success and failure alike |
| ServiceState.Service.WriteRecorded | runtime/daemon-rust/src/service_control.rs:299-313 | Records, then writes; state and result equal the specification |
| ServiceState.Service.OpenEvery | runtime/daemon-rust/src/lib.rs:6285-6312 | The pass that opens ranges; state and result equal the specification |
| ServiceState.Service.PutBackEvery | runtime/daemon-rust/src/lib.rs:6313-6336 | The pass that puts nodes back, trying each; state and result equal the specification |
| ServiceState.Service.RestoreAll | runtime/daemon-rust/src/lib.rs:6178-6377 | The whole restore; state and result equal the specification |
| ServiceState.Service.DisableService | runtime/daemon-rust/src/lib.rs:6446-6453 | Disable; state and result equal the specification; whatever fails, disabled on disk is owed or back; success owes nothing and leaves the stated record |
| ServiceState.Service.ResetService | runtime/daemon-rust/src/lib.rs:6446-6460 | Reset; state and result equal the specification |
| ServiceState.Service.EnableService | runtime/daemon-rust/src/lib.rs:6436-6443 | Enable; state and result equal the specification; success sets the intent and clears the release flag, and no node is touched |
| Thermal.EnsureKeeps | runtime/daemon-rust/src/lib.rs:1574-1599 | The vendor's mode is recorded before the first change, and success means no limits |
| Thermal.RestoreKeeps | runtime/daemon-rust/src/lib.rs:1608-1630 | A restore that succeeds leaves the vendor's mode and no record; one that fails keeps the record |
| Thermal.SetRangeKeeps | runtime/daemon-rust/src/lib.rs:1748-1792 | A range that is set leaves the borrowed mode backed by its record; one that fails adds no range |
| Thermal.ResetRangeKeeps | runtime/daemon-rust/src/lib.rs:1794-1856 | Resetting the last range gives the vendor's mode back and clears the record |
| Thermal.GuardKeeps | runtime/daemon-rust/src/lib.rs:4566-4604 | One guard step without failures lifts the limits while ranges are saved, and gives the mode back when none are |
| Thermal.EnsureExactly | runtime/daemon-rust/src/lib.rs:1574-1599 | Without failures the limits are lifted exactly when the mode can be read, and an unset mode is recorded as the normal one |
| Thermal.RestoreExactly | runtime/daemon-rust/src/lib.rs:1608-1630 | Without failures a borrowed mode is given back exactly when the mode can be read |
| Thermal.SetRangeExactly | runtime/daemon-rust/src/lib.rs:1748-1792 | Without failures a range is set exactly when it is valid and the limits can be lifted |
| Thermal.FirstRangeUndone | runtime/daemon-rust/src/lib.rs:1778-1783 | A first range that cannot be applied gives the vendor's mode back |
| Thermal.ResetRangeSucceeds | runtime/daemon-rust/src/lib.rs:1794-1856 | Without failures a range is reset |
| Thermal.EveryRunKeeps | runtime/daemon-rust/src/lib.rs:1574-1630 | Over every run with failures and deaths, a mode that is not the vendor's is backed by a durable record of the vendor's own, never of the no-limits one the daemon chose |
| Thermal.ThermalGuard.EnsureUnrestricted | runtime/daemon-rust/src/lib.rs:1574-1599 | The step on the fields in place; state and result equal the specification |
| Thermal.ThermalGuard.RestoreMode | runtime/daemon-rust/src/lib.rs:1608-1630 | The step on the fields in place; state and result equal the specification |
| Thermal.ThermalGuard.SetClusterRange | runtime/daemon-rust/src/lib.rs:1748-1792 | The step on the fields in place; state and result equal the specification |
| Thermal.ThermalGuard.ResetClusterRange | runtime/daemon-rust/src/lib.rs:1794-1856 | The step on the fields in place; state and result equal the specification |
| Thermal.ThermalGuard.GuardStep | runtime/daemon-rust/src/lib.rs:4566-4604 | The step on the fields in place; state and result equal the specification |
| Bypass.ReconcileMeans | runtime/daemon-rust/src/lib.rs:718-752 | What a reconciliation does, read off its request: off charges, on without a threshold pauses, a threshold pauses at its level, resumes two points below and keeps to what was in between; the hardware agrees unless a repeat was put off; an unknown threshold or an unusable level fails without a write |
| Bypass.FlipNeeds | runtime/daemon-rust/src/bypass_policy.rs:50-75 | The latch flips only on a usable level across the two-point band |
| Bypass.FlipsAreSpaced | runtime/daemon-rust/src/bypass_policy.rs:50-75 | Every flip after the first costs two points of travel, tracked along the run |
| Bypass.FlipsAreBounded | runtime/daemon-rust/src/lib.rs:713-752 | For any selection, readings, failed writes and interference, twice the flips after the first is at most the total variation of the usable levels |
| Bypass.BoundIsReached | runtime/daemon-rust/src/bypass_policy.rs:50-75 | The bound is sharp: at every threshold a run of any length flips on each reading and meets it with equality |
| Bypass.RetriesAreRare | runtime/daemon-rust/src/lib.rs:735-748 | A repeated request is written again, whether or not the write works, only on demand or after five seconds |
| Bypass.SteadyWritesAreBounded | runtime/daemon-rust/src/lib.rs:735-748 | Over any run of a steady request, against any vendor conflict and any failures, it is written at most once in five seconds |
| Bypass.BypassPolicy.Reconciled | runtime/daemon-rust/src/lib.rs:713-752 | One reconciliation on the policy fields; state and result equal the specification, and are those its request asks for |
| Bypass.BypassPolicy.Follow | runtime/daemon-rust/src/lib.rs:754-767 | Reconciling reading after reading, with the number of flips and its bound |
| Pacing.FrameKeeps | runtime/daemon-rust/src/touch_resampler.rs:593-608 | A touch frame keeps the counters true to the log |
| Pacing.CatchUpKeeps | runtime/daemon-rust/src/touch_resampler.rs:621-639 | The catch-up loop ends with the next tick beyond now, and everything it injects is due |
| Pacing.WakeKeeps | runtime/daemon-rust/src/touch_resampler.rs:614-639 | A wake cuts a stale session off first, then catches up |
| Pacing.RunKeeps | runtime/daemon-rust/src/touch_resampler.rs:531-663 | Every interleaving of frames and wakes keeps the counters true and every injection due |
| Pacing.FrameBegins | runtime/daemon-rust/src/touch_resampler.rs:593-608 | When a touch frame begins a session, continues one or ends it, and when the next frame is due |
| Pacing.NothingAfterLift | runtime/daemon-rust/src/touch_resampler.rs:593-639 | In every run an injected frame and a continued session always follow a touch, never a lift |
| Pacing.WakeCovers | runtime/daemon-rust/src/touch_resampler.rs:614-639 | A wake soon after a source frame covers every due tick |
| Pacing.InjectionsAreBounded | runtime/daemon-rust/src/touch_resampler.rs:593-639 | At any injection, touch and injected frames together number at most the elapsed milliseconds plus one, and the panel reported at most 40 ms before |
| Pacing.CatchUpCovers | runtime/daemon-rust/src/touch_resampler.rs:621-639 | When injections succeed, no due tick is left uncovered |
| Pacing.Resampler.constructor | runtime/daemon-rust/src/touch_resampler.rs:515-523 | Starts idle |
| Pacing.Resampler.Observe | runtime/daemon-rust/src/touch_resampler.rs:593-608 | One touch frame on the counters; state and log equal the specification |
| Pacing.Resampler.WakeUp | runtime/daemon-rust/src/touch_resampler.rs:614-639 | The catch-up loop; state and log equal the specification and the next tick lies beyond now |
| Interpolation.EmitInterpolated | runtime/daemon-rust/src/touch_resampler.rs:429-491 | Builds the frame in a loop over the slots; writes it exactly when a contact is active, something would move and the device accepts |
| Interpolation.ForwardIsBounded | runtime/daemon-rust/src/touch_resampler.rs:456-470 | A carried coordinate stays in its axis, moves at most one source movement and never backwards |
| Interpolation.ProductsFit | runtime/daemon-rust/src/touch_resampler.rs:462-467 | The intermediate product fits 64 bits |
| Interpolation.FrameIsBounded | runtime/daemon-rust/src/touch_resampler.rs:452-476 | Every position emitted, of whatever contact, is on its axis and follows the name of an active contact; from a contact that reads on its axis it is at most one source movement away; every active contact is reported |
| Interpolation.FrameCarries | runtime/daemon-rust/src/touch_resampler.rs:452-476 | Every active contact is reported exactly where its last movement takes it: as far as it went in proportion to the time elapsed, without fraction, for no longer than that movement took |
| Interpolation.WorthWriting | runtime/daemon-rust/src/touch_resampler.rs:438-490 | A frame is worth writing exactly when it shows some contact elsewhere than it was read |
| Interpolation.FrameRestoresMarker | runtime/daemon-rust/src/touch_resampler.rs:477-488 | A frame ends with the last contact's own marker value after another, and one report |
| Interpolation.RecognisedAsWritten | runtime/daemon-rust/src/touch_resampler.rs:401-421 | Every frame as written is recognised as injected |
| Interpolation.RecognisedAfterFilter | runtime/daemon-rust/src/touch_resampler.rs:401-421 | After unchanged values have been dropped, the frame is recognised exactly when the held marker is not the temporary one, in particular when it is the slot's own |
| Strings.DecimalRoundTrip | runtime/daemon-rust/src/lib.rs:3066-3066 | A 32-bit number is read back as the number it prints |
| StateFile.ReadFile | runtime/daemon-rust/src/lib.rs:3047-3317 | The line loop and the closing normalisation; result equals the specification |
| StateReading.IdleLinesDoNotCount | runtime/daemon-rust/src/lib.rs:3055-3066 | A blank line, a remark, a line without an equals sign or with an unknown key may stand anywhere in a file |
| StateReading.LastLineSets | runtime/daemon-rust/src/lib.rs:3055-3290 | The last line of a file sets its own setting, as the kind of the setting tells, whatever white space it has, and no other |
| StateFile.ParsedIsNormal | runtime/daemon-rust/src/lib.rs:3047-3317 | Whatever the text, what is read is normal |
| StateFile.PrintedIsRead | runtime/daemon-rust/src/lib.rs:3333-3387 | A normal state is read back exactly as printed |
| SettingsTable.TableIsWellFormed | runtime/daemon-rust/src/lib.rs:3068-3288 | The 48 keys are distinct and plain, and every field starts from a value it may hold |
| SettingsTable.SettingsRoundTrip | runtime/daemon-rust/src/lib.rs:3047-3387 | Over all 48 settings: reading, printing and reading again changes nothing, and every normal state survives |

## Left out

- The device itself: sysfs, procfs, binder, sockets, ioctl and Android commands are values with a fallible write; the adapter contract (a successful apply sets the target, a successful restore sets the token) is assumed of the setters, including for touch, GPU and cores, whose restore works from saved preferences rather than from a reading.
- File-system detail: a save is atomic, except that a process dying inside a service save may or may not have replaced the file; an error of the directory sync after the rename is read as a failed save.
- Reboots, which also reset the device, and external writers to borrowed nodes.
- The thermal mode inside per-app profiles, and `cpu_thermal_mode_prev` in the overlay of preferences: the preference theorems hold up to that field.
- Recovery.EveryRunIsCrashSafe: says nothing of a control that itself was led astray, by an unfinished restore without a journal entry, or by a user command while its original was held or waiting to be recovered, because nothing durable remembers such a value; the other controls keep the promise.
- The window between the comparison read and the write in `apply_to` and in `rollback`: other theme pickers act only while the daemon pauses or samples.
- `Original::Legacy` clock records and the encoding of the journals themselves.
- The governor text behind `supported`: whether a device may be locked is a property of the driver here.
- ServiceControl.EveryRunKeeps: its promise about a disabled record needs an enable that cancels a release under way to complete; `EnableWindow` shows why.
- Node texts and `normalized_original`: a node holds a setting, not the text the kernel prints for it. The order that restores core control last is covered by the theorems holding for every order.
- The clock and per-app releases that a disable performs first (each has its own model), and the remaining steps of a release (touch memory, display defaults, ZRAM, window size, palettes), which count as steps that succeed or fail.
- Pacing.InjectionsAreBounded: integers are unbounded, so the 64-bit product behind the next tick, which would wrap after some two hundred days of unbroken touch, is not modelled.
- The resampler's reading of frames into contact slots: slots are given with their last two points and times.
- Interpolation: the kernel's fuzz filter and a kernel with fewer slots than the frame names.
- Interpolation.FrameIsBounded: bounds the movement only of a contact that reads inside its axes; the code clamps any other contact into them, which can move it further.
- CilSyntax.RoundTrip: atoms are words or complete quoted strings; stray quotes and a backslash before a line break inside quotes are not covered. The parser's stack holds the open lists by value and attaches each to its parent when it closes.
- CIL statements other than type, attribute and `neverallow` declarations carry no meaning here, and class permission maps are not modelled.
- StateFile: the legacy migration of processor settings after reading; a missing file.
- Profiles: JSON text, size limits on the file, and capability tables.
- Bypass.FlipsAreBounded: one selection at a time; changing the selection reads the latch back from the hardware. A transition whose write keeps failing is tried again on every event.
- The palette cache's reader side, the refresh loop and the other command groups; the display, GPU and charging tables; telemetry, permissions and user interface.
