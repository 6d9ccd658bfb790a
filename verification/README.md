# Verified model of the Cursor Agent CLI plugin

The plugin lets a proxy serve requests through the official Cursor Agent CLI. It installs
that CLI under a managed root, runs it under a semaphore, streams its output to the host,
keeps a catalogue of its models, validates requests, follows logins and counts usage. This
project models those parts in Dafny and proves what they promise, for every input, every
interleaving and every run. `dafny verify dfyconfig.toml` checks all of it.

## How the model is laid out

- **Paths, Resolve.** `filepath.Clean`, `Rel` and the archive-path filter as a machine on
  component stacks, on real strings; pathname resolution that follows symbolic links with a
  link budget (255 for `filepath.EvalSymlinks`, 40 for the kernel), as section 4.13 of the
  Base Definitions of POSIX.1-2017 describes it.
- **Extract, ExtractExact, Folds.** The archive extraction over a whole file system, with Go's wrapping
  int64 total.
- **Layout, InstallMachine, InstallSafety, InstallSteps, InstallRuns, InstallProgress,
  InstallUndo, InstallLimits, Installer.** The managed root is a set of version directories (with their `.new` and `.old` siblings), the
  `current` link, and two bin links that are absent, direct or through `current`.
  `InstallMachine` is the installer as a step machine: every mkdir, symlink, rename and
  unlink may fail, every recursive removal may stop half-way, and a crash may come between
  any two steps. `InstallSafety` says what a root stands for, `InstallSteps` is the invariant
  that every step keeps, `InstallRuns` the promises over whole runs, `InstallProgress` what a
  call achieves when everything works, `InstallUndo` what one that fails leaves, `InstallLimits` the exact conditions under which the
  promises end, and `Installer` the same code written as assignments to a mutable disk, tied
  step by step to the machine.
- **Stream, Capture, Slots.** De-duplication of partial output and the conversation with
  the host; the bounded buffer and one agent invocation; the semaphore as a state machine
  over all interleavings.
- **Catalogue, ModelCache, ModelRaces, JsonPolicy, Login, Usage** (with **Text** and **Sums**). The
  stateful and recursive components. Go iterates over maps in no fixed order, so the loops
  over maps here take the keys in an arbitrary order.

What the installer's theorems assume is in their `requires`. A `World` names the versions
that occur, those that are asked for and the packages that may come. The names are ordinary
file names, none of which is another one plus `.new` or `.old` (`NamesOk`; the version pattern
at internal/provider/installer.go:66 does not exclude it, and `ClearingExactly` shows what
happens); packages come from an accepted archive (`Genuine`; `ExtractedIsGenuine` derives it
from extraction); a run starts from a root that inspection can read and, when nothing is
installed, on which every package that may come is quiet (`Startable`). The empty root is one
in every world, and `SafeExactly` shows that this condition is exact. Answers of read-only
calls are functions of the modelled disk, and the directories under `.local` are real
directories.

## Where the code does less than it seems to

- A successful installation reads back the extracted binary path only if that path runs
  through no link of the archive (`ReadsBackExactly`, `LinkedParentReadsBackElsewhere`); if it
  does run through one, no later package of that layout can be installed
  (`LinkedLayoutIsStuck`).
- A root that reads as not installed is not always safe to install on: a leftover `current` or
  a dangling direct link may come to life before the swap (`SafeExactly`,
  `DanglingDirectWakes`).
- The uninstall instructions at README.md:120 do not mention `current`, and leaving it makes
  the next installation of that version unsafe (`LeftoverCurrentWedges`).
- The check against the expanded-size limit can be passed by wrapping the int64 total
  (`SizeCheckExactly`, `SizeLimitCanWrap`); for an accepted archive the limit holds exactly when
  the running sum stays within int64 (`SizeLimitExact`).
- The test for an inner `/../` in the archive-path filter never decides: cleaning has removed
  every such component (`SafeArchivePathExact`).
- An incremental stream loses a piece that begins with everything sent so far
  (`IncrementalExactly`).
- Reconfiguring while an invocation holds or waits for a token breaks the semaphore
  (`ConfigureExactly` and the two lemmas after it); that a waiter counts too is because a
  select evaluates its channel once, while the release reads the field again.
- A model discovery overtaken by a reconfiguration caches a list filtered by the old one, and
  the next discovery serves it (`CachedExactly`, `OverlapExactly`, `DeniedIsServed`); so does one
  between the two halves of a reconfiguration (`HalfConfiguredServesOld`).
- A benign `type` ends the inspection of a content map before its MIME fields
  (`ForeignMimeExactly`).
- Login state keys are clock readings. A key given out again while a process under it still
  runs lets that process complete the new session (`OwnExitExactly`, `SharedKeyMisleads`).
- An empty write to an exactly full buffer raises the truncation flag (`OverflowExactly`).

## Model

| member | source | states |
|---|---|---|
| `InstallRuns.WholeRunSafety` | internal/provider/installer.go:255-317 | From an empty managed root, after any sequence of install calls in which any file-system operation may fail, any removal may stop half-way and the process may crash between any two steps, inspection never reports incomplete, mixed or escaping links: it says not installed, or installed at one version whose binary printed that version |
| `InstallRuns.UpgradeIsAtomic` | internal/provider/installer.go:263-317 | From a root with direct legacy links, links through `current` or a mix, or one on which nothing is installed and nothing wakes too early: in every reachable state inspection answers with one installation, its answer changes only in the step that swaps `current`, and whenever a version is reported both bin links resolve to the same file inside it |
| `InstallRuns.OneStep` | internal/provider/installer.go:263-317 | Every step of the installer other than the final swap leaves the installed version, the installed path and that version's files as they were |
| `InstallRuns.CallOutcome` | internal/provider/installer.go:272-301 | Whatever happened before it, a call that returns an error leaves the resolved version and binary path as before, and if it counts as tidy (CallRestores says when it does) the target directory has its earlier contents or absence back and a first install leaves no link; a successful call is read back as the requested version, its directory holds exactly the package, nothing stays staged, and a tidy one leaves no backup; directories of other versions are never touched |
| `InstallRuns.CallKeeps` | internal/provider/installer.go:202-318 | The same for one call from any state that satisfies the installer's invariant, which the call keeps |
| `InstallRuns.ReinstallDoesNothing` | internal/provider/installer.go:229-231 | While a version is active, a later call for it succeeds without fetching a package and leaves the disk exactly as it was |
| `InstallUndo.CallRestores` | internal/provider/installer.go:272-301 | Whatever happened before a call and whichever of its operations fail, if the steps of its deferred function work: success leaves the version installed from the package with nothing staged or put aside; failure leaves the version's directory and the answer of inspection as they were, and no link where there was none; other versions are never touched |
| `InstallUndo.RollbackRestores` | internal/provider/installer.go:282-295 | From every state in which the rollback begins, if its own removal and renames succeed: the target directory has its earlier contents or absence back, nothing else has changed, inspection answers as before the call, and the clean-up of a first installation takes away exactly `current` and the links with "/current/" in their text, so that none is left where none was |
| `InstallUndo.RunsAreUndone` | internal/provider/installer.go:282-295 | The same wherever a rollback begins in any run of calls, failures and crashes |
| `InstallUndo.LinkFailureUndone` | internal/provider/installer.go:302-315 | When `current` or a bin link cannot be replaced, or the directory for it made, the call goes into the rollback with the disk unchanged and is undone |
| `InstallUndo.ActivationFailureUndone` | internal/provider/installer.go:296-298 | When the new directory cannot be moved into place, nothing stays staged and the rollback restores what was there |
| `InstallUndo.BackupFailureUndone` | internal/provider/installer.go:276-279 | When the earlier directory cannot be put aside, the call ends with nothing staged and with the directory and the links untouched |
| `InstallUndo.EarlyEndTouchesNothing` | internal/provider/installer.go:255-279 | A call that ends before the new directory was to be activated has touched neither the target directory nor a link |
| `InstallUndo.FailedOpChangesNothing` | internal/provider/installer.go:265-316 | An operation that fails changes nothing on the disk, in any state |
| `InstallUndo.DoomedCallFails` | internal/provider/installer.go:265-316 | Once an operation that a call cannot do without has failed, the call never succeeds |
| `InstallUndo.FailedOpDooms` | internal/provider/installer.go:265-316 | Each such operation dooms the call when it fails |
| `InstallUndo.CurrentInsideExactly` | internal/provider/installer_transactional.go:163-171 | The clean-up recognises a bin link by its text if and only if it goes through `current`, or is direct with a directory of that name on its way |
| `InstallSteps.StepKeeps` | internal/provider/installer.go:255-317 | Every step, including every failure outcome, half-done removal and crash, keeps the installer's invariant |
| `InstallSafety.StandsMeans` | internal/provider/installer_transactional.go:38-77 | A root that stands for an installation is inspected as exactly that installation |
| `InstallSafety.InspectedStands` | internal/provider/installer_transactional.go:38-77 | Conversely, whatever mix of direct and indirect links makes inspection report a version, the root stands for it |
| `InstallSafety.DirsElsewhere` | internal/provider/installer.go:265-281 | Staging, backing up and removing directories other than the active version's is invisible to inspection |
| `InstallSafety.PointCurrent` | internal/provider/installer_transactional.go:102-128 | Pointing `current` at the version already installed is invisible |
| `InstallSafety.Relink` | internal/provider/installer.go:263-264 | Once `current` names the installed version, replacing either bin link by one through `current` to the path read back is invisible; this is what the layout check buys |
| `InstallSafety.SwapInstalls` | internal/provider/installer_transactional.go:102-128 | With both bin links going through `current`, the one swap makes the root stand for the new version and its real binary path |
| `Installer.ManagedRoot.InstallOfficialCursorAgent` | internal/provider/installer.go:202-319 | The installer as imperative code over the mutable disk: every call is a run of the step machine, keeps its invariant, reports success truthfully and leaves the root as CallOutcome says |
| `Installer.ManagedRoot.EnsureStableBinLinks` | internal/provider/installer_transactional.go:143-161 | Makes the directory and both links in order, and stops at the first failure in a state the rollback handles |
| `Installer.ManagedRoot.ReplaceCurrentLink` | internal/provider/installer_transactional.go:102-128 | Leaves a link that already points right alone, swaps any other, and follows the machine's step either way |
| `Installer.ManagedRoot.Rollback` | internal/provider/installer.go:282-295 | The deferred rollback, whatever fails in it, ends the call as failed and follows the machine step by step |
| `InstallLimits.ReadsBackExactly` | internal/provider/installer.go:299-318 | A verified package is read back under the extracted binary path if and only if that path runs through no link of the archive |
| `InstallLimits.LinkedParentReadsBackElsewhere` | internal/provider/installer.go:450-469 | A package with a linked directory in front of the binary passes every check and is read back under another path |
| `InstallLimits.ClearingExactly` | internal/provider/installer.go:265-273 | Clearing a staging or backup name is invisible to inspection if and only if it is not the name of the installed version; otherwise the installation is gone |
| `InstallLimits.FirstLinkExactly` | internal/provider/installer_transactional.go:143-161 | With no bin links, placing the first one keeps the root readable if and only if nothing resolves behind `current` yet; otherwise inspection reports incomplete links |
| `InstallLimits.SafeExactly` | internal/provider/installer_transactional.go:38-77 | A root on which nothing is installed stays readable in every run of calls, failures and crashes, and its answer changes in no step but the swap, if and only if for every package that may come no direct link finds anything in its tree and `current`, if it is there, names neither its version nor a directory in which its path leads anywhere |
| `InstallLimits.LoudIsSeen` | internal/provider/installer.go:296-313 | A package that fails that condition is seen too early in a call in which nothing fails: when its tree is in place, or when the first link is |
| `InstallLimits.DanglingDirectWakes` | internal/provider/installer.go:296-298 | Two dangling direct links report an installation as soon as the version directory is in place, before the swap |
| `InstallLimits.BlockedForever` | internal/provider/installer.go:259-264 | As long as inspection fails or the installed path differs from that of the packages that come, no sequence of calls changes the disk, and none succeeds but for the version already active |
| `InstallLimits.LinkedLayoutIsStuck` | internal/provider/installer.go:263-264 | Once a package whose binary lies behind a link of its archive is active, every later call with a package of that layout is refused for ever |
| `InstallProgress.RecoveryExactly` | internal/provider/installer.go:202-318 | From every state in which calls, failures and crashes can leave the root, a call with a verified package in which every operation succeeds ends in success if and only if nothing is installed, the version is the active one or the installed binary has the package's path; success leaves exactly one complete installation and no staging or backup directory, refusal leaves the disk alone |
| `InstallProgress.Completes` | internal/provider/installer.go:265-317 | Once past the layout check, a call in which every operation succeeds puts the tree in place, points `current` and both links at it and clears the staging and backup directories |
| `InstallLimits.UnreadableForever` | internal/provider/installer.go:259-262 | Once inspection fails, no sequence of calls changes the disk or succeeds |
| `InstallLimits.LeftoverCurrentWedges` | README.md:120-120 | Following the uninstall instructions leaves `current` behind; a reinstallation of that version interrupted after its first link then leaves the root unreadable for good |
| `InstallLimits.ExtractedIsGenuine` | internal/provider/installer.go:246-255 | An archive that extraction accepts is a package the installer's promises cover, and version verification ran the last file named like the agent |
| `Layout.InspectManagedInstall` | internal/provider/installer_transactional.go:38-77 | The two loops compute the inspection of the disk, through symlink resolution of both bin links |
| `Layout.InspectMeans` | internal/provider/installer_transactional.go:38-77 | Inspection says not installed exactly when both links lead nowhere, and installed at a version and path exactly when both lead to that path in that version's directory |
| `Layout.InspectErrors` | internal/provider/installer_transactional.go:38-77 | When inspection fails and with which error: a link that cannot be resolved, one link without the other, a link to a version directory itself, links to different versions or paths; and that nothing in a well-formed root escapes |
| `Layout.BinLinkResolves` | internal/provider/installer_transactional.go:143-161 | Resolving a bin link by its full path gives what its target says: directly into a version directory or through `current`, at the cost of one or two links |
| `Layout.LinkTextIs` | internal/provider/installer_transactional.go:143-161 | The relative target computed for a bin link climbs to `.local` and descends to the share directory, wherever the root is |
| `Layout.ManagedSplitExact` | internal/provider/installer_transactional.go:79-100 | A resolved path is split if and only if it lies at least two components below the versions root; the parts join back to it, and exactly one component below is reported as lacking a version |
| `Layout.ManagedSplitInverts` | internal/provider/installer_transactional.go:79-100 | Splitting inverts joining the versions root, a version and an archive path |
| `Paths.SafeArchivePathExact` | internal/provider/installer.go:471-477 | A name is accepted if and only if it is relative, not empty once cleaned, does not begin with two dots and holds no NUL; the result is its cleaned components, none of them a parent |
| `Paths.SafeArchivePathFixpoint` | internal/provider/installer.go:471-477 | The filter returns its own output unchanged |
| `Paths.CleanReadsBack` | internal/provider/installer.go:471-477 | Cleaning a path keeps whether it is absolute and the component stack it stands for |
| `Paths.CleanKeepsMeaning` | internal/provider/installer.go:471-477 | Cleaning a relative path does not change where it leads from any directory |
| `Paths.CleanIdempotent` | internal/provider/installer.go:471-477 | Cleaning twice is cleaning once |
| `Paths.SplitInvertsJoin` | internal/provider/installer_transactional.go:95-99 | Splitting at slashes inverts joining with them |
| `Paths.RelRoundTrip` | internal/provider/installer_transactional.go:143-161 | Joining a base with the relative path computed from it cleans to the target |
| `Resolve.Confinement` | internal/provider/installer.go:392-439 | Below a directory whose links are relative and without parent components, no chain of links of any length leads out of it, and nothing outside has a say in the answer |
| `Resolve.WalkBelow` | internal/provider/installer.go:450-469 | Resolution below such a directory is resolution in that directory alone |
| `Resolve.WalkCanonical` | internal/provider/installer.go:450-469 | Resolution answers only with paths every component of which is a real entry |
| `Resolve.WalkFixesCanonical` | internal/provider/installer.go:450-469 | Such a path resolves to itself within any link budget |
| `Resolve.SelfLinkLoops` | internal/provider/installer.go:450-469 | A link to itself is reported as too many links within any budget |
| `Resolve.AbsoluteLinkRestarts` | internal/provider/installer.go:450-469 | An absolute link is resolved from the root |
| `Resolve.BehindFile` | internal/provider/installer.go:450-469 | Nothing lies behind a file, which is reported as no directory, nor behind what is missing, which is reported as not existing |
| `Resolve.WalkBudget` | internal/provider/installer.go:450-469 | What resolves within one link budget resolves alike within any larger one |
| `Resolve.WalkGrows` | internal/provider/installer.go:392-439 | Adding entries never changes an answer already given |
| `Extract.SafeExtract` | internal/provider/installer.go:368-448 | The entry loop computes the left-to-right fold over the archive's entries, errors included |
| `Extract.ExtractionFacts` | internal/provider/installer.go:375-448 | A successful extraction has distinct entry paths, at most the allowed number of entries, changes nothing outside the destination, and returns the path of the last regular file named like the agent, which resolves to that very file |
| `Extract.ExtractionConfined` | internal/provider/installer.go:392-439 | After an accepted archive, following any path through any chain of extracted links stays inside the destination, whatever the rest of the disk holds |
| `Extract.StepHandled` | internal/provider/installer.go:388-442 | Each admitted entry keeps containment, distinctness, the counts, the wrapped byte total and the last matching binary |
| `Extract.CreateContained` | internal/provider/installer.go:411-439 | Creating an entry under an accepted path lands below the destination, changes nothing that was there, and a new file is found again under its path |
| `ExtractExact.ExtractedExactly` | internal/provider/installer.go:388-447 | After a successful extraction every entry is on the disk as its header declared it: a directory's path leads to a directory, a file lies under its path and is found there, a link lies under its path with the declared text; every new path is that of an entry or of a directory on the way to one; and the binary is the last regular file named `agent` or `cursor-agent` |
| `ExtractExact.AcceptedExactly` | internal/provider/installer.go:380-442 | An entry is extracted if and only if the reader delivers it, the entry limit and the names so far allow it, its name is accepted, it declares a directory, a file within the size limit or an acceptable link, there is room for it, and the disk takes it |
| `ExtractExact.RefusedExactly` | internal/provider/installer.go:380-442 | A refused entry is refused for the first reason that applies, in the order of the checks |
| `ExtractExact.LinkAcceptedExactly` | internal/provider/installer.go:430-433 | A link text passes the check if and only if it is relative, holds neither ".." nor NUL, and names something together with the entry's directory |
| `ExtractExact.MkdirAllWorksExactly` | internal/provider/installer.go:402-405 | Making an entry's directories works if and only if its path leads to a directory or some directory on the way is there and the next component is not |
| `ExtractExact.CreateBelowWorksExactly` | internal/provider/installer.go:411-439 | Creating a file or link with its parent directories works if and only if there is room in that sense |
| `Extract.SizeLimitExact` | internal/provider/installer.go:406-410 | For non-negative sizes the declared bytes are within the limit if and only if the running sum never leaves int64 |
| `Extract.SizeCheckExactly` | internal/provider/installer.go:406-410 | A regular entry that reaches the size check is refused by it if and only if the declared sum exceeds the limit and still fits int64 |
| `Extract.SizeLimitCanWrap` | internal/provider/installer.go:406-410 | Under any positive limit below 2^63, a second file that brings the declared sum to 2^63 or more is not refused for its size, whether or not it can be written |
| `Stream.DeltasRefineMerge` | internal/provider/cursor_cli.go:466-503 | The deltas concatenate to the fold that replaces the sent text by one extending it and appends any other, and no delta is empty |
| `Stream.CumulativeIsLast` | internal/provider/cursor_cli.go:492-499 | A cumulative stream, repeats allowed, concatenates to exactly its last text |
| `Stream.IncrementalExactly` | internal/provider/cursor_cli.go:492-499 | An incremental stream arrives whole if and only if no piece begins with everything sent before it |
| `Stream.ReaderRefines` | internal/provider/cursor_cli.go:471-503 | Reading line by line from any point computes the deltas of the partial lines and the text and usage of the last result line |
| `Stream.ReadAll` | internal/provider/cursor_cli.go:471-503 | The decoding loop shows the host exactly what the reader computes, or stops at a malformed line or a refused event with an initial part of it |
| `Stream.StreamCursorJSON` | internal/provider/cursor_cli.go:466-508 | Without error the host saw all deltas and one terminal event with the last result's text and usage; an error means malformed output, no result text or a refused event |
| `Stream.StreamWorker` | internal/provider/executor.go:101-112 | Every accepted stream shows deltas, then at most one terminal event, then exactly one close; the close message is empty if and only if the terminal event was shown, only after the texts of the agent's text lines and its last result, and whenever the output is well formed with a result and the host refuses nothing; a failed agent shows nothing and closes with its error |
| `Stream.ShownTells` | internal/provider/cursor_cli.go:471-507 | Without error, every line was well formed, the deltas concatenate to the merged texts of exactly the lines of type assistant or text that are no result, and the terminal event carries the text and usage of the last line of type result or with a result field |
| `Stream.PartialsAre` | internal/provider/cursor_cli.go:479-487 | The streamed texts are those of exactly the lines of type assistant or text without a result field, in order |
| `Stream.LastResultIs` | internal/provider/cursor_cli.go:480-484 | The result is that of the last line of type result or with a result field |
| `Stream.WellFormedSucceeds` | internal/provider/cursor_cli.go:471-507 | When every line is well formed and the last result has a text, only the host can make the stream fail |
| `Stream.OneLineOneDelta` | internal/provider/cursor_cli.go:485-503 | A single non-empty assistant line before the result arrives as exactly one delta |
| `Stream.ShownConverses` | internal/provider/cursor_cli.go:466-508 | Whatever the reader of the output showed, the close after it makes it a complete conversation |
| `Capture.LimitedBuffer.Write` | internal/provider/cursor_cli.go:34-50 | After any writes the buffer holds exactly the first bytes up to the limit and the flag is set exactly when a write found the buffer full or did not fit |
| `Capture.CapturedMore` | internal/provider/cursor_cli.go:34-50 | What each branch of a write must do to keep that |
| `Capture.OverflowExactly` | internal/provider/cursor_cli.go:34-50 | For a positive limit, however the bytes are cut up, the flag is set if and only if there were more bytes than the limit or an empty write met an exactly full buffer |
| `Capture.EmptyWriteOverflows` | internal/provider/cursor_cli.go:39-42 | An empty write to an exactly full buffer raises the flag although nothing was lost |
| `Capture.RunAgent` | internal/provider/cursor_cli.go:86-154 | Every way out returns exactly the token it took; without one the error is that of a disabled plugin, a missing workspace or a cancellation, in this order; without error the result is the process's complete output, and the limit error is reported exactly when an exited process wrote more than fits, or nothing at all into an exactly full buffer |
| `Capture.Invoke` | internal/provider/cursor_cli.go:101-153 | The same outcomes for the part that runs the process and captures its output |
| `Slots.AlwaysBalanced` | internal/provider/cursor_cli.go:95-100 | In every interleaving of invocations and logins whose reconfigurations find no invocation waiting or holding: tokens equal holders, never exceed the number last configured, and no release ever waits |
| `Slots.CapacityIsConfigured` | internal/provider/service.go:66-69 | In every run the channel in use has exactly the capacity that the last reconfiguration set |
| `Slots.EventsMeet` | internal/provider/cursor_cli.go:95-100 | Entering adds a waiter, acquiring makes it a holder, cancelling removes it, releasing removes the holder and one token, and processes come and go as started and reaped |
| `Slots.EnabledExactly` | internal/provider/cursor_cli.go:95-100 | What each of these waits for: room in the channel the select was entered with, a token in the channel in use |
| `Slots.EntersExactly` | internal/provider/cursor_cli.go:95-100 | A waiter gets in exactly when there are fewer holders than the capacity |
| `Slots.ConfigureExactly` | internal/provider/service.go:61-69 | Replacing the channel keeps the balance if and only if no invocation is between reaching its select and giving its token back |
| `Slots.ConfigureWhileHeldExceeds` | internal/provider/service.go:66-69 | A reconfiguration while a token is held lets holders exceed the capacity |
| `Slots.ConfigureWhileWaitingStrands` | internal/provider/service.go:66-69 | A reconfiguration while an invocation waits strands it: it takes its token from the old channel and cannot give it back to the new one |
| `Slots.ProcessesBounded` | internal/provider/cursor_cli.go:104-138 | With quiet reconfigurations and no return that leaves its process behind, live processes never exceed the holders nor these the number last configured |
| `Slots.HeldExactly` | internal/provider/cursor_cli.go:127-138 | A step keeps every live process with a holder if and only if it is not a return that leaves its process behind |
| `Slots.AlwaysHeld` | internal/provider/cursor_cli.go:127-138 | Without such returns, in every interleaving every live process belongs to a holder |
| `Slots.EarlyReturnExceedsProcesses` | internal/provider/cursor_cli.go:131-135 | The early return after a timeout lets more processes live than the capacity, with the semaphore still balanced |
| `Slots.StepBalanced` | internal/provider/auth.go:135-140 | Entering, acquiring, cancelling, releasing and late exits keep the balance, for agent and login invocations alike |
| `Catalogue.ParseModelLines` | internal/provider/models.go:60-86 | The loop with its seen set and the stable sort compute the sorted first occurrences |
| `Catalogue.ParseExact` | internal/provider/models.go:60-86 | The parsed list is strictly increasing under case folding and holds exactly the lines whose name no earlier line gave |
| `Catalogue.StrictlySortedUnique` | internal/provider/models.go:84-85 | Those two facts determine the list |
| `Catalogue.ParseLineExactly` | internal/provider/models.go:64-76 | A line is read as a model if and only if, trimmed, it is no heading and its part before the first dash between spaces is a name without space, tab or slash; the label is what follows |
| `Catalogue.FilterCursorModels` | internal/provider/models.go:88-120 | The loops over the folded allow and deny sets and the excluded prefixes compute the filter |
| `Catalogue.FilterExact` | internal/provider/models.go:88-120 | Filtering keeps exactly the allowed, not denied, not prefix-excluded models, in order |
| `Catalogue.FilterMeans` | internal/provider/models.go:88-120 | A model is kept if and only if the allow list is empty or an entry of it, without the prefix, equals its name under folding, no entry of the deny list does, and no excluded prefix begins its folded name |
| `Catalogue.PrefixIsOptional` | internal/provider/models.go:137-137 | A request without the prefix is answered like one with it |
| `Catalogue.BareNameResolves` | internal/provider/models.go:135-151 | A listed model is found under its own name in any case and with white space around, unless the name begins with the prefix |
| `Catalogue.ResolveModel` | internal/provider/models.go:135-151 | The lookup loop computes the resolution, error cases included |
| `Catalogue.ResolveExact` | internal/provider/models.go:135-151 | A request resolves to a listed name equal to it under case folding; it fails exactly when it names nothing or nothing listed |
| `Catalogue.CatalogueRoundTrip` | internal/provider/models.go:122-151 | For every listing and configuration, resolving any advertised prefix and name against the same list gives back exactly that name |
| `ModelCache.CacheAgrees` | internal/provider/models.go:32-58 | In every sequential run of reconfigurations, shutdowns and discoveries a returned list is the filtered reading, under the current configuration, of this call's output or of one fetched since the last reset and not expired; a failed discovery changes nothing |
| `ModelCache.CacheIsFounded` | internal/provider/models.go:53-56 | A non-empty cache always is such a reading and expires one lifetime after it was asked for |
| `ModelCache.ErrorsExactly` | internal/provider/models.go:33-52 | A discovery fails exactly when the plugin is disabled, or nothing fresh is cached and the agent fails or lists nothing usable; each with its own error |
| `ModelCache.CachedWhileFresh` | internal/provider/models.go:38-57 | After a discovery that asked the agent, the next one is answered with the same list, whatever the agent would do, if and only if lists are kept and the time is not over |
| `ModelCache.InForceIsLastSet` | internal/provider/service.go:61-69 | In every run the configuration in force is the last one set |
| `ModelRaces.InForceIsLastSet` | internal/provider/service.go:61-69 | The same in every interleaving |
| `ModelRaces.CachedExactly` | internal/provider/models.go:32-58 | In every interleaving of discoveries, the two halves of reconfigurations and shutdowns, a cached list comes from one discovery and is right for the configuration in force if and only if none was set since that discovery began, or the one in force reads its output alike and keeps it as long; it was asked for after the last clearing if and only if none fell within the discovery |
| `ModelRaces.AlwaysTraced` | internal/provider/models.go:32-58 | In every interleaving a cached list is the reading of the output of a discovery that began and ended, under the configuration it began with, expiring one lifetime of that configuration after its beginning |
| `ModelRaces.SequentialRefines` | internal/provider/models.go:32-58 | Without overlap the steps are those of the sequential cache |
| `ModelRaces.SameReadingExactly` | internal/provider/models.go:88-120 | Two configurations make the same of every output that the first makes something of if and only if the first keeps no name or both keep the same names |
| `ModelRaces.OverlapExactly` | internal/provider/models.go:33-56 | A discovery overtaken by a reconfiguration leaves a right cache, whatever the agent lists, if and only if the old configuration keeps no name, or both keep the same names for as long |
| `ModelRaces.DeniedIsServed` | internal/provider/models.go:39-56 | For any two configurations and name that the new one filters out and the old one kept, the discovery after an overtaken one serves that name from the cache |
| `ModelRaces.DeniedIsServedOnce` | internal/provider/models.go:39-56 | One such run: a model denied by the new configuration is served under it |
| `ModelRaces.HalfConfiguredServesOld` | internal/provider/service.go:66-73 | Between setting the configuration and clearing the cache the old list is served under the new configuration |
| `ModelRaces.ShutdownIsOvertaken` | internal/provider/service.go:82-86 | A discovery that ends after a shutdown fills the cache again |
| `ModelCache.Service.DiscoverModels` | internal/provider/models.go:32-58 | The method computes the cache's step and answer, and the slice handed out never aliases the cached one |
| `ModelCache.Service.ApplyConfig` | internal/provider/service.go:61-78 | Reconfiguration installs the configuration and empties the cache |
| `ModelCache.Service.ShutDown` | internal/provider/service.go:82-86 | Shutdown empties the cache and keeps the configuration |
| `JsonPolicy.HoldsExactly` | internal/provider/cursor_cli.go:243-290 | Following a tree down finds exactly the nodes some path leads to |
| `JsonPolicy.FindUnsupportedToolShape` | internal/provider/cursor_cli.go:243-269 | Whatever the order of map iteration, a tool shape is found if and only if some node is one |
| `JsonPolicy.FindUnsupportedContent` | internal/provider/cursor_cli.go:271-290 | Whatever the order, unsupported content is found if and only if some node has it |
| `JsonPolicy.ValidateRequestPayload` | internal/provider/cursor_cli.go:224-241 | The verdict and its error code are a function of the tree: tools if some object at some depth has one of the listed words as a key in any case or as its type, or a word beginning with mcp_tool_; else content if some object has an attachment field or, unless its type is one of plain text, a type that names a medium or a MIME type other than text; else accepted |
| `JsonPolicy.ForeignMimeExactly` | internal/provider/cursor_cli.go:292-315 | A map declaring a MIME type other than text passes if and only if its own type is a benign one and it has no attachment field |
| `JsonPolicy.PromptOfText` | internal/provider/cursor_cli.go:353-363 | A text is written trimmed on lines of its own, under its role if there is one; a blank one is not |
| `JsonPolicy.PromptOfObject` | internal/provider/cursor_cli.go:337-348 | An object writes six of its fields in order under its own role, if it names one, and nothing else |
| `JsonPolicy.PromptOfList` | internal/provider/cursor_cli.go:349-352 | Lists are written item by item |
| `JsonPolicy.VisitedIsClean` | internal/provider/cursor_cli.go:335-364 | Every node the prompt is collected from, in an accepted tree, is clean all the way down |
| `JsonPolicy.VisitedTextIsKept` | internal/provider/cursor_cli.go:335-364 | No text the collector meets is lost: every visited string, at any depth and under any role, is in the prompt, trimmed |
| `JsonPolicy.UnvisitedFieldsDoNotMatter` | internal/provider/cursor_cli.go:335-348 | The prompt depends on the role and the six collected fields alone |
| `JsonPolicy.CollectPrompt` | internal/provider/cursor_cli.go:335-364 | The recursive writer appends exactly the prompt of the value |
| `JsonPolicy.ParseCursorAuthJSON` | internal/provider/auth.go:270-309 | Whatever the order, authenticated if and only if some object at some depth has a field named isAuthenticated, authenticated or loggedIn, in any case and trimmed, that is true, or a status text classified so, and none has one that is false; known if and only if one or the other occurs |
| `JsonPolicy.CollectTruths` | internal/provider/auth.go:271-298 | The walk collects a truth value if and only if some field says it |
| `JsonPolicy.AllAgree` | internal/provider/auth.go:299-308 | Comparing with the first truth decides whether all are true |
| `Login.PollSuccessMeans` | internal/provider/auth.go:93-124 | Over every interleaving with distinct state keys, a successful poll means a known authenticated status now, and an unexpired, undropped session that was opened for an authenticated CLI or whose own login process ended without error |
| `Login.UrlIsPublishedOnce` | internal/provider/auth.go:165-186 | Whatever the two readers read, a session's approval URL never changes once published |
| `Login.PollSuccessExactly` | internal/provider/auth.go:93-124 | Over every interleaving, whether keys are distinct or not: a poll succeeds if and only if the status is known and authenticated and the last call with that key since the last shutdown is unexpired, was for an authenticated CLI or some login process under the key has ended since, and none under the key has ended with an error since |
| `Login.PollExactly` | internal/provider/auth.go:93-124 | Over every interleaving, each answer of a poll and when it is given: unknown, expired after one minute or fifteen, pending, failed with the last error of a process under the key, status failed, unconfirmed, success |
| `Login.PendingShowsFirst` | internal/provider/auth.go:103-108 | With distinct keys a pending poll shows the first approval URL that the session's own process has printed, and none before |
| `Login.OwnExitExactly` | internal/provider/auth.go:67-84 | Every later success of a session means that its own process ended without error if and only if no other process under its key was still running when it was opened |
| `Login.SharedKeyMisleads` | internal/provider/auth.go:67-84 | A run in which the promise fails: a key given out again after a shutdown, and the first process's exit completing the second session |
| `Usage.BookAllMeans` | internal/provider/usage.go:61-99 | For every record sequence there is a row per used model holding the sums over its records and its latest use, and the start is the earliest use |
| `Usage.EntryExactly` | internal/provider/usage.go:61-73 | Which records count and as what: those of the provider that name a model or else an alias, under the first that is not blank, at their own time or else the clock's |
| `Usage.TotalByCases` | internal/provider/usage.go:140-149 | A given total counts as it is, else input, output and reasoning, and only without these the cache tokens |
| `Usage.SumAddsUp` | internal/provider/usage.go:85-95 | Every quantity of a tally is the sum of the records' own fields, and the failures the number of failed records |
| `Usage.OrderDoesNotMatter` | internal/provider/usage.go:61-99 | Recording the same timestamped records in any order gives the same ledger |
| `Usage.Counters.RecordUsage` | internal/provider/usage.go:61-99 | Accepts exactly the records of the provider that name a model, and keeps the ledger equal to the booking of all accepted records |
| `Usage.Counters.GatewayUsage` | internal/provider/usage.go:101-138 | The totals are the sum of the rows and, field by field, of all accepted records; each model has exactly one row, which adds up its own records; rows are ordered by latest use and folded name; failures never exceed requests |
| `Usage.Accumulate` | internal/provider/usage.go:105-137 | The accumulation loop, over the map in any order, computes those totals and that listing |
| `Usage.FailuresWithinRequests` | internal/provider/usage.go:85-88 | Failures are between zero and the number of requests, which is the number of records |
| `Usage.Counters.ShutDown` | internal/provider/service.go:90-93 | Shutdown forgets every record |
| `Text.EqualFoldExactly` | internal/provider/models.go:65-65 | Two texts are equal under folding if and only if they agree letter by letter but for case |
| `Text.TrimSpaceExactly` | internal/provider/models.go:64-73 | Trimming takes away exactly the white space at both ends |
| `Text.LessExactly` | internal/provider/models.go:84-84 | The order is that of the first difference, a prefix coming first |

## Left out

- HTTP fetching, redirects, the installer page and its regular expressions, gzip and tar decoding, SHA-256: a call of the installer is given a version and a package or none.
- Running the binary: a file carries the text it prints for `--version`.
- Partial contents of an archive entry whose writing failed, file modes and ownership: the extraction then fails and its directory is deleted.
- Temporary names: the random sibling of a link being replaced and the extraction directory are fresh, and what a crash leaves of them is not kept in the modelled root.
- Two installers on one root at a time: the code serialises calls with a mutex, and so does the model.
- Process groups, signals, timeouts and environment filtering: only whether and how a process ended.
- JSON, YAML and regular-expression engines, redaction, and the texts of errors: the model starts from decoded values and tells errors apart by their kind.
- Text extraction from a stream line (`cursorText`) and usage parsing: a decoded line carries its text and usage.
- The text form of the login status and the classification of status strings: the latter is a parameter of the JSON walk.
- Unicode case folding and spaces: ASCII only, where `ToLower` and `EqualFold` agree.
- Token counting, configuration ranges, the setup page, management responses, cgo and method dispatch: no property that spans operations.
- Login.PollSuccessMeans: the fields of a session are read and written in one step each, so the data races of the code on them are not modelled; the failure to build the authentication record after a confirmed status is not either.
- Usage.BookAllMeans: counters are mathematical integers, so overflow of int64 counters is not modelled; a record's time, or the clock's, is not the zero time.
- ModelCache.CacheAgrees: for sequential runs, because it is false otherwise; ModelRaces.CachedExactly is the exact statement for overlapping ones.
- Slots.AlwaysBalanced: takes reconfigurations that find the service quiet, because the property is false otherwise; ConfigureExactly is the exact condition.
- Catalogue.SortByKey: sorts by stable insertion, one of the algorithms the stable library sort may use; on distinct keys all give the same list.
