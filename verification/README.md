# Host paths and the TUI supervisor, modelled and proved

Two parts of the repository are modelled in Dafny 4.11.

**Host paths** (`packages/shared/src/hostPath.ts`). Path functions for the operating system of a host, as string functions
with the platform as an argument. A path is read as a *place*: a canonical root and a list of resolved segments. Every
function of the module is shown to act on places, and the laws follow from that: normalizing keeps the place, `dirname` and
`basename` split what `join` rejoins, `relative` undoes `join` exactly when stated. Lower-casing is a function the caller
supplies, of which only `HostPathRelative.CaseFold` is assumed.

**The TUI supervisor** (`packages/tui-supervisor/src`). Event-driven objects with explicit time: an incremental lexer of
terminal titles, a three-rung activity tracker, a readiness latch, a reconnecting hub client with one-shot and session
credentials, prompt injection, and the wiring of `main.ts`. Each object is a class whose methods are proved to compute a
function from the old state to the new one; the theorems are about those functions, over all runs. A run is any list of
events in which the clock does not go back and timers fire only when armed and due. `SupervisorParts` shows that in every
run of the wired process each part is in a run of its own, so what is proved of a part holds of the whole; where a
statement needs timers on time, the lift says so.

What the outside sees is stated from the outside: the text of a returned path, the notifications of the tracker, the frames
handed to a socket and the effects of a prompt are told by the characters of the input or the events of the run
(`HostPathText`, `HostPathSpelling`, `ActivityNotices.NoticeExact`, `HubFrames.FramesExact`, `PromptInjection.EffectsExact`,
`TitleStateTracker.StreamSays`).

Smaller parts: the screen classifier of `packages/shared/src/agentScreenRules.ts`, and the quoting of `PtyProxy.ts` and
`env.ts` against the readers of the quoted text.

Files: `Runs`, `HostPath*.dfy`; `AgentTitles`, `TitleLexer`, `TitleStateTracker`; `ReadinessGate`; `ActivityTracker`,
`ActivityRuns`, `ActivityHolds`, `ActivityEcho`, `ActivityNotices`; `HubClient`, `HubRuns`, `HubNotices`, `HubFrames`;
`PromptInjection`; `Supervisor`, `SupervisorRuns`, `SupervisorParts`, `SupervisorNotices`; `WhiteSpace`, `ScreenRules`;
`ShellQuoting`, `EnvFile`; `Options`.

`dafny verify dfyconfig.toml` checks the project.

## What the proofs show about the code

- A chunk that ends with an empty title hides the titles before it: a working marker followed by an empty title leaves the
  tracker `unknown` when both arrive in one push, and `working` in two (`TitleStateTracker.EmptyTitleHidesMarker`).
  `StreamExact` says, for every stream and every way of cutting it, exactly when the tracker follows the titles of the
  stream: no cut falls in an unfinished title longer than the carry-over buffer, and no chunk hides a title that way.
- The byte rung leaves the status of an earlier rung in place, and its repetitions leave the rung. So a snapshot can be
  `idle` with the status `working` (`ActivityRuns.StaleStatus`), and a registration can tell the hub so
  (`SupervisorParts.StaleRegistration`); a screen just read as working can go unannounced (`ActivityRuns.HiddenWorking`).
  `SnapshotExact` and `EngagedIsAnnounced` say exactly when, the latter from the notifications before the reading: only
  within fifteen seconds of the last one.
- The idle hold is closed neither by unknown readings of the screen nor by the byte rung. It can outlive the activity it was
  opened in, and then a single idle reading ends the next one (`ActivityHolds.SingleReadingPublishes`), although the source
  says that a single idle frame is not a completed turn. `ActivityRuns.IdleIsConfirmed` says exactly when idle is published,
  and `ActivityHolds.OneStretchExact` when all the readings of a hold fall in one stretch of activity.
- A child exit waiting for the hub is dropped when a `registered` is processed on a socket that is no longer open
  (`HubNotices.DroppedExit`), although the client's documentation calls it the one message the hub must not miss; and a
  second report before the registration overwrites it (`HubNotices.OverwrittenExit`). `ExitDelivery` covers every run.
- `relative` between two shares of one server climbs above the share, and joining it to the first path does not lead to
  the second (`HostPathRoots.ShareToShare`). From a server without a share, such as `\\srv`, joining turns the first part of
  the relative form into a share (`HostPathRoots.ServerToName`). `HostPathRoots.RelativeExact` covers every two absolute
  paths, with conditions on the paths alone. Between posix paths that climb out of their start it leads back exactly when
  the target climbs at least as far (`HostPathRelative.PosixRelativeExact`; `..` to `a` fails, `HostPathRoots.ClimbToName`).
- On win32 `./C:` normalizes to the drive `C:`, and that to `C:.` (`HostPathNormal.DotDriveIsUnstable`);
  `NormalizeKeepsPlace` says for which paths the place changes, and `HostPathNormal.NormalizeIdempotentExact` for which of
  them a second normalization changes the result.
- A share without anything below it (`HostPathRejoin.ShareInput`), and a single name relative to a drive (`C:x`,
  `HostPathRejoin.DriveNameInput`), are not put together again by joining what `dirname` and `basename` give; every other
  stable win32 path is (`HostPathRejoin.RejoinExact`).
- Since whole spellings are lower-cased, a relative win32 path can be the same as an absolute one: a name that is no drive
  but lower-cases to one, such as the Kelvin sign and a colon (`HostPathSame.FoldsToDrive`, `KelvinIsADrive`).
  `HostPathSame.StableSamePath` says exactly when two stable paths are the same.

## Model

| member | source | states |
|---|---|---|
| `HostPathPlaces.ParsedRootCanonical` | packages/shared/src/hostPath.ts:41-54 | every parsed root is spelled canonically: nothing, one separator, a drive, a rooted drive, or a UNC share |
| `HostPathPlaces.UncReparse` | packages/shared/src/hostPath.ts:38-46 | a canonical UNC root followed by a name is matched again with the same server and share, and nothing more |
| `HostPathPlaces.RenderReparse` | packages/shared/src/hostPath.ts:41-58 | reading back a written place, with or without a trailing separator, gives the same root, segments and place |
| `HostPathSegments.SegmentsAreTokens` | packages/shared/src/hostPath.ts:56-58 | splitting at separator runs and filtering finds exactly the tokens of a character-by-character reference |
| `HostPathSegments.SegmentsSplit` | packages/shared/src/hostPath.ts:56-58 | the segments of a path cut at any separator are those before it, then those after it |
| `HostPathSegments.JoinThenSplit` | packages/shared/src/hostPath.ts:56-58 | joining clean segments and splitting again gives them back |
| `HostPath.ResolveDots` | packages/shared/src/hostPath.ts:72-84 | the loop over the stack computes dot resolution of the list |
| `HostPathSegments.ResolveStackAction` | packages/shared/src/hostPath.ts:72-84 | a list may be resolved in any two parts; `..` stays only in front and never under a root |
| `HostPathSegments.ResolveClimb` | packages/shared/src/hostPath.ts:72-84 | climbing n levels from a list ending in n names drops exactly those |
| `HostPathPlaces.NormalForm` | packages/shared/src/hostPath.ts:86-97 | normalize writes the place of the path and keeps the trailing separator, except after a bare root |
| `HostPathLaws.NormalizeKeepsPlace` | packages/shared/src/hostPath.ts:86-97 | normalize keeps the place of a path exactly when it does not begin with a name that reads as a drive |
| `HostPathLaws.NormalizeIdempotent` | packages/shared/src/hostPath.ts:86-97 | normalize is idempotent on every posix path and every win32 path of that kind |
| `HostPathNormal.NormalizeIdempotentExact` | packages/shared/src/hostPath.ts:86-97 | normalize is idempotent exactly when the path settles: it keeps its place, or its drive-like first name comes with more (a bare drive) or is not a drive and a dot before other names |
| `HostPathNormal.RenderedIsNormal` | packages/shared/src/hostPath.ts:86-97 | what is written for any place is left alone by normalize |
| `HostPathNormal.DriveAndDot` | packages/shared/src/hostPath.ts:86-97 | `C:.\a` normalizes to `C:a` |
| `HostPathNormal.DotDriveIsUnstable` | packages/shared/src/hostPath.ts:86-97 | the excluded case, for every drive: `./C:` normalizes to `C:`, and that to `C:.` |
| `HostPathAlike.NormalizeAlike` | packages/shared/src/hostPath.ts:41-97 | on win32 paths that differ only in which separators are written have one normal form |
| `HostPathAlike.JoinAlike` | packages/shared/src/hostPath.ts:99-108 | so have their joins |
| `HostPathAlike.RelativeAlike` | packages/shared/src/hostPath.ts:199-231 | and relative and samePath do not tell them apart |
| `HostPathSpelling.NoSlashWritten` | packages/shared/src/hostPath.ts:86-97 | no slash is left in a win32 normal form |
| `HostPathSpelling.NormalSpelling` | packages/shared/src/hostPath.ts:86-97 | how a normal form is written: the root, the segments with single separators between, and the trailing separator of the path, once; `.` or the bare root when nothing is left |
| `HostPathPlaces.TrimmedForm` | packages/shared/src/hostPath.ts:192-197 | the trimmed path is the spelling of the place, and parses back to it |
| `HostPathPlaces.PosixSamePath` | packages/shared/src/hostPath.ts:231 | on posix samePath holds exactly between paths of one place |
| `HostPathSame.StableSamePath` | packages/shared/src/hostPath.ts:192-231 | between stable win32 paths samePath holds exactly when the pieces of their spellings fold alike, one by one |
| `HostPathSame.AbsoluteSamePath` | packages/shared/src/hostPath.ts:192-231 | between absolute win32 paths that is: exactly when their roots and their segments fold alike |
| `HostPathSame.FoldsToDrive` | packages/shared/src/hostPath.ts:192-231 | paths of different kinds that are the same: a name the host lower-cases to a drive, and the drive |
| `HostPathSame.KelvinIsADrive` | packages/shared/src/hostPath.ts:192-231 | an input: under a character-by-character lower-casing the Kelvin sign and a colon before `\x` is the same as `k:\x` |
| `HostPathLaws.JoinPlaceExact` | packages/shared/src/hostPath.ts:99-108 | from any first part but a bare server or a bare drive, a join leads to the root of the first part and the segments of both, exactly when what is written does not begin with a name that reads as a drive |
| `HostPathLaws.JoinPlace` | packages/shared/src/hostPath.ts:99-108 | so it does on posix always, and on win32 whenever the first part has a root |
| `HostPathLaws.BareDriveJoined` | packages/shared/src/hostPath.ts:41-108 | a bare drive joined with anything becomes a rooted drive |
| `HostPathLaws.BareServerJoined` | packages/shared/src/hostPath.ts:41-108 | a bare server followed by a name becomes a share of that name |
| `HostPathGrouping.JoinAssociative` | packages/shared/src/hostPath.ts:99-108 | join is associative and agrees with joining three parts at once when the middle part has no root: on posix for any first part, on win32 for any but a bare server or nothing; joining the first two first needs that what is written for them does not begin with a name that reads as a drive |
| `HostPathGrouping.NothingFirst` | packages/shared/src/hostPath.ts:99-108 | with nothing first, the other two may be joined before exactly when normalizing what they make settles it |
| `HostPathGrouping.RootedIsPlain` | packages/shared/src/hostPath.ts:99-108 | that need is met on posix, and after every first part with a root |
| `HostPathGrouping.JoinRootedMiddle` | packages/shared/src/hostPath.ts:72-108 | on posix a middle part under the root may be joined to the rest first exactly when the two do not climb above the root, or the first part is at the root |
| `HostPath.StripTrailingSeps` | packages/shared/src/hostPath.ts:110-114 | the loop removes exactly the trailing separators |
| `HostPath.ScanDirRoot` | packages/shared/src/hostPath.ts:120-147 | the root scan of a win32 path: UNC share, drive, separator or nothing |
| `HostPath.ScanCut` | packages/shared/src/hostPath.ts:151-162 | the right-to-left scan finds the separator before the last name |
| `HostPath.Dirname` | packages/shared/src/hostPath.ts:117-173 | the whole of dirname, its early returns and `//` included |
| `HostPathText.HasName` | packages/shared/src/hostPath.ts:117-185 | every path has a last name at or after any place, or only separators from there |
| `HostPathText.PosixText` | packages/shared/src/hostPath.ts:117-185 | the texts on posix, told by where the last name stands: dirname is what comes before the separator in front of it, except `.`, `/` and `//`; basename is the name |
| `HostPathText.PosixNoName` | packages/shared/src/hostPath.ts:117-185 | the same for the empty path and for nothing but separators |
| `HostPathText.Win32DirnameText` | packages/shared/src/hostPath.ts:117-173 | the text of dirname on win32, after a share, a drive root, a drive, a separator or nothing |
| `HostPathText.Win32RootDirname` | packages/shared/src/hostPath.ts:117-173 | without a name dirname is the root, a share keeping at most one separator |
| `HostPathText.Win32BasenameText` | packages/shared/src/hostPath.ts:176-185 | basename on win32 is the last name, wherever the root ends |
| `HostPathText.Win32RootBasename` | packages/shared/src/hostPath.ts:176-185 | without a name basename is empty, except that a share alone is named by its share |
| `HostPathDirname.BasenameIs` | packages/shared/src/hostPath.ts:176-185 | basename is the last name of the path after a drive, trailing separators left off |
| `HostPathDirname.BasenameExtension` | packages/shared/src/hostPath.ts:176-185 | how an extension is dropped from the name basename gives without it |
| `HostPathDirname.PosixDirBase` | packages/shared/src/hostPath.ts:117-185 | dirname keeps the root and all segments but the last, and basename is the last |
| `HostPathDirname.DirnameBasenameRejoin` | packages/shared/src/hostPath.ts:99-185 | on posix joining dirname and basename names the place of the path, for every string |
| `HostPathDirname.DriveDirnameBasenameRejoin` | packages/shared/src/hostPath.ts:99-185 | the same on win32 for every path with a drive root |
| `HostPathRejoin.RejoinExact` | packages/shared/src/hostPath.ts:99-185 | for every stable win32 path: it rejoins exactly unless it is a share with nothing below it (whose name is not `.` or `..`), or a single name relative to a drive |
| `HostPathRejoin.DriveNameInput` | packages/shared/src/hostPath.ts:99-185 | an input that does not rejoin: `C:x` |
| `HostPathRejoin.ShareInput` | packages/shared/src/hostPath.ts:99-185 | inputs that do not rejoin: `\\srv\share` for every server and every share not named `.` or `..` |
| `HostPathDirname.DirnameIsClimb` | packages/shared/src/hostPath.ts:72-185 | on posix dirname leads where `..` leads exactly when the last part is a name, or what dirname leaves is the root |
| `HostPathDirname.DirnameDecreases` | packages/shared/src/hostPath.ts:117-173 | dirname makes every posix path smaller except `/` and `.`, which it keeps |
| `HostPathDirname.DirnameLimit` | packages/shared/src/hostPath.ts:117-173 | iterating dirname ends at `/` for absolute and `.` for relative posix paths |
| `HostPath.ClimbAndDescend` | packages/shared/src/hostPath.ts:213-218 | the loop over the shared segments computes climb and descent |
| `HostPathRelative.CommonShape` | packages/shared/src/hostPath.ts:213-218 | the names left out of the climb fold alike, and the first that are not left out do not |
| `HostPathSpelling.RelativeSpelling` | packages/shared/src/hostPath.ts:199-219 | under one root relative writes a `..` for each name of the start that is not shared, then the names of the target that are not, with single separators between |
| `HostPath.Relative` | packages/shared/src/hostPath.ts:199-219 | the whole of relative, the target itself returned across roots |
| `HostPathRelative.RelativeUndoesJoin` | packages/shared/src/hostPath.ts:99-219 | joining a path with its relative form to a target names the target, under one root: `/`, a drive, a UNC share or a single separator |
| `HostPathRelative.AnchoredRelativeExact` | packages/shared/src/hostPath.ts:199-219 | from an absolute path that is not a bare server that happens exactly when the roots fold alike |
| `HostPathRoots.RelativeExact` | packages/shared/src/hostPath.ts:199-219 | between any two absolute paths: from a bare server exactly when the two are the same path, or the target is a share named `.` or `..` like its server and the start; from every other start exactly when the roots fold alike |
| `HostPathRoots.ServerToName` | packages/shared/src/hostPath.ts:199-219 | an input where it fails under one root: from `\\srv` to `\x` relative is `..\x`, and joining makes `..` a share |
| `HostPathRoots.ShareToShare` | packages/shared/src/hostPath.ts:199-219 | an input where it fails between shares: from `\\srv\a\x` to `\\srv\b\y` relative is `..\..\b\y` |
| `HostPathRoots.ServerToOwnShare` | packages/shared/src/hostPath.ts:199-219 | from a server to its share of the same name it leads back exactly when the name is `.` or `..` |
| `HostPathRelative.PosixRelativeExact` | packages/shared/src/hostPath.ts:199-219 | on posix, for any two strings, exactly when both are absolute, or both relative and the target climbs at least as far, or the start is empty |
| `HostPathRoots.ClimbToName` | packages/shared/src/hostPath.ts:199-219 | an input where it fails on posix: from `..` to `a` relative is `../a` |
| `HostPathRelative.PosixRelativeEmpty` | packages/shared/src/hostPath.ts:199-231 | on posix relative is empty exactly between paths that are the same |
| `HostPathSame.RelativeEmpty` | packages/shared/src/hostPath.ts:199-219 | between stable win32 paths relative is empty exactly when their roots and their segments fold alike |
| `HostPathSame.AbsoluteRelativeEmpty` | packages/shared/src/hostPath.ts:199-231 | so between absolute win32 paths exactly when they are the same |
| `TitleLexer.NextTitleLex` | packages/tui-supervisor/src/TitleStateTracker.ts:12-55 | searching left to right for the title pattern, then for an unfinished tail, finds what the lexer finds |
| `TitleLexer.LexSnoc` | packages/tui-supervisor/src/TitleStateTracker.ts:12-55 | lexing one more character is one step of an automaton whose state is the unfinished title |
| `TitleLexer.LexResume` | packages/tui-supervisor/src/TitleStateTracker.ts:36-55 | a stream may be lexed in two parts from the carried-over tail; no title is lost or counted twice |
| `TitleLexer.EncodeLex` | packages/tui-supervisor/src/TitleStateTracker.ts:12 | a complete title sequence is found first, with its title, whatever follows |
| `TitleLexer.MatchTold` | packages/tui-supervisor/src/TitleStateTracker.ts:12 | a title is found exactly where the text begins with a sequence that sets it: code 0 or 2, a body without BEL and ESC, BEL or ESC and a backslash |
| `TitleLexer.PartialTold` | packages/tui-supervisor/src/TitleStateTracker.ts:13 | what is carried over is exactly what more input could complete to such a sequence |
| `TitleStateTracker.Tracker.Scan` | packages/tui-supervisor/src/TitleStateTracker.ts:40-51 | the exec loop finds the last title, whether any carries a marker, and where the tail begins |
| `TitleStateTracker.Tracker.Push` | packages/tui-supervisor/src/TitleStateTracker.ts:36-74 | the new pending text, state and marker latch of a push |
| `TitleStateTracker.AfterTitlesIs` | packages/tui-supervisor/src/TitleStateTracker.ts:57-73 | titles taken one at a time end where the last non-empty one leads, once a marker has been seen |
| `TitleStateTracker.ChunkAgrees` | packages/tui-supervisor/src/TitleStateTracker.ts:57-73 | exactly when one push agrees with its titles taken one at a time |
| `TitleStateTracker.StreamExact` | packages/tui-supervisor/src/TitleStateTracker.ts:36-74 | for every stream and every cutting, the tracker is after each push at the fold over the titles so far, with the unfinished tail pending, exactly when every cut leaves a tail that fits and no chunk's last title is an empty one hiding another verdict |
| `TitleStateTracker.StreamState` | packages/tui-supervisor/src/TitleStateTracker.ts:36-74 | however a stream of non-empty titles is cut where its tails fit, the tracker ends at the fold over its titles, with its unfinished tail pending |
| `TitleStateTracker.StreamSays` | packages/tui-supervisor/src/TitleStateTracker.ts:36-74 | for every stream of clean cuts, told by the text of its titles: unknown before any marker; then blocked exactly when the last title that is not empty contains "Action Required", else working exactly when it begins with a spinner glyph and a blank, else idle |
| `TitleStateTracker.NothingSpoken` | packages/tui-supervisor/src/TitleStateTracker.ts:36-74 | titles that are all empty change nothing |
| `TitleStateTracker.PushSays` | packages/tui-supervisor/src/TitleStateTracker.ts:36-74 | the same for one push, however cut: its last title decides, once a marker has been seen |
| `TitleStateTracker.ChunkingIrrelevant` | packages/tui-supervisor/src/TitleStateTracker.ts:36-74 | two ways of cutting one stream end in the same state |
| `TitleStateTracker.PendingBounded` | packages/tui-supervisor/src/TitleStateTracker.ts:51-55 | the carried-over text is always a title prefix of at most 4096 characters |
| `TitleStateTracker.EmptyTitleHidesMarker` | packages/tui-supervisor/src/TitleStateTracker.ts:57-73 | the counterexample for chunks ending with an empty title |
| `ReadinessGate.Gate.NotifyOutput` | packages/tui-supervisor/src/ReadinessGate.ts:59-70 | output restarts both timers and counts, until the latch |
| `ReadinessGate.Gate.OnQuiet` | packages/tui-supervisor/src/ReadinessGate.ts:63-65 | the quiet timer latches only once enough has been drawn |
| `ReadinessGate.Gate.OnFallback` | packages/tui-supervisor/src/ReadinessGate.ts:68 | the fallback timer always latches |
| `ReadinessGate.Gate.WaitUntilReady` | packages/tui-supervisor/src/ReadinessGate.ts:83-97 | resolved at once after the latch, else a waiter with its own timeout |
| `ReadinessGate.Gate.OnWaitTimeout` | packages/tui-supervisor/src/ReadinessGate.ts:86-89 | a timed-out waiter is removed and resolved, the others stay |
| `ReadinessGate.Gate.OnReady` | packages/tui-supervisor/src/ReadinessGate.ts:107-113 | a listener fires at once after the latch, else waits for it |
| `ReadinessGate.Gate.LatchReady` | packages/tui-supervisor/src/ReadinessGate.ts:115-127 | the latch clears the timers, resolves every waiter and fires every listener |
| `ReadinessGate.AlwaysLatched` | packages/tui-supervisor/src/ReadinessGate.ts:115-127 | in every run no timer, waiter or unfired listener outlives the latch |
| `ReadinessGate.ReadyForEver` | packages/tui-supervisor/src/ReadinessGate.ts:35-37 | once ready, always ready, since the same moment |
| `ReadinessGate.ReadyMeansBooted` | packages/tui-supervisor/src/ReadinessGate.ts:59-70 | in every run, late timers or not, the gate is ready only if some output was followed by the quiet period after enough bytes, or by the fallback period |
| `ReadinessGate.ReadyIffFired` | packages/tui-supervisor/src/ReadinessGate.ts:59-70 | in every run, late timers or not, the gate is ready exactly when the fallback timer has fired, or the quiet timer with enough bytes drawn before it |
| `ReadinessGate.ReadyIffBooted` | packages/tui-supervisor/src/ReadinessGate.ts:59-70 | when timers are on time, the gate is ready exactly when some output was followed by the quiet period after enough bytes, or by the fallback period |
| `ReadinessGate.EachCallOnce` | packages/tui-supervisor/src/ReadinessGate.ts:83-97 | every call to wait is still waiting or resolved, once |
| `ReadinessGate.ListenersFireOnce` | packages/tui-supervisor/src/ReadinessGate.ts:107-127 | in every run each listener fires exactly once, in order, once the gate has latched, and none before |
| `ReadinessGate.ResolutionTimes` | packages/tui-supervisor/src/ReadinessGate.ts:76-97 | with timers on time a call is resolved at the earlier of the latch and the longest wait |
| `ActivityTracker.Tracker.NotifyInput` | packages/tui-supervisor/src/ActivityTracker.ts:122-124 | opens the input grace |
| `ActivityTracker.Tracker.NotifyResize` | packages/tui-supervisor/src/ActivityTracker.ts:127-129 | opens the resize grace |
| `ActivityTracker.Tracker.SetTitleState` | packages/tui-supervisor/src/ActivityTracker.ts:131-137 | keeps the last known title state and latches title authority |
| `ActivityTracker.Tracker.SetScreenState` | packages/tui-supervisor/src/ActivityTracker.ts:144-147 | takes the screen state and evaluates at once |
| `ActivityTracker.Tracker.RecordOutput` | packages/tui-supervisor/src/ActivityTracker.ts:163-175 | output within a grace is dropped, other output becomes a sample |
| `ActivityTracker.Tracker.GetSnapshot` | packages/tui-supervisor/src/ActivityTracker.ts:181-190 | the state, the window sum, and what was last published |
| `ActivityTracker.Tracker.SumSince` | packages/tui-supervisor/src/ActivityTracker.ts:194-203 | filter and reduce compute the sum over the window |
| `ActivityTracker.Tracker.StopTicking` | packages/tui-supervisor/src/ActivityTracker.ts:156-161 | stops the interval and disarms the recheck |
| `ActivityTracker.Tracker.EvaluateNow` | packages/tui-supervisor/src/ActivityTracker.ts:192-197 | one climb of the ladder with the window sum |
| `ActivityTracker.Tracker.OnTick` | packages/tui-supervisor/src/ActivityTracker.ts:199-205 | prunes the samples, then climbs the ladder |
| `ActivityTracker.Tracker.OnRecheck` | packages/tui-supervisor/src/ActivityTracker.ts:277-284 | the idle-hold timer clears itself and evaluates |
| `ActivityTracker.Tracker.Ladder` | packages/tui-supervisor/src/ActivityTracker.ts:207-223 | screen, then title, then bytes: the first rung with an opinion decides |
| `ActivityTracker.Tracker.ApplyClassified` | packages/tui-supervisor/src/ActivityTracker.ts:232-259 | the shared rule of screen and title, with the idle hold |
| `ActivityTracker.Tracker.HoldForConfirmation` | packages/tui-supervisor/src/ActivityTracker.ts:261-275 | opens, counts or ends the hold, rearming the recheck |
| `ActivityTracker.Tracker.TickCombinedMode` | packages/tui-supervisor/src/ActivityTracker.ts:298-328 | the byte heuristic, and the promotion to the title rung |
| `ActivityRuns.WindowAlwaysAgrees` | packages/tui-supervisor/src/ActivityTracker.ts:163-205 | in every run the pruned samples and the full history agree from every cutoff still usable |
| `ActivityRuns.SumsAgreeWithHistory` | packages/tui-supervisor/src/ActivityTracker.ts:181-205 | every tick, evaluation and snapshot sums the full history of accepted output over the window |
| `ActivityRuns.WindowSumTold` | packages/tui-supervisor/src/ActivityTracker.ts:194-203 | a window sum is added up sample by sample, each counting while it is no older than the window |
| `ActivityRuns.EmissionDiscipline` | packages/tui-supervisor/src/ActivityTracker.ts:232-328 | the last notification carries the state; two alike in a row are `active` and fifteen seconds apart |
| `ActivityRuns.KeepaliveIsSent` | packages/tui-supervisor/src/ActivityTracker.ts:255-258 | after fifteen silent seconds of activity the next evaluation notifies, unless an idle reading awaits confirmation |
| `ActivityRuns.SnapshotExact` | packages/tui-supervisor/src/ActivityTracker.ts:181-328 | at any moment of any run a snapshot carries the status of the last notification not decided by bytes and the rung of the last one that was no byte repetition; so it repeats the last notification exactly when that was not decided by bytes, or no earlier status is left over and bytes made the last change |
| `ActivityRuns.StaleStatus` | packages/tui-supervisor/src/ActivityTracker.ts:320-323 | a run where it does not: bytes announce idle, and the snapshot is idle with the status `working` |
| `ActivityRuns.EngagedIsShown` | packages/tui-supervisor/src/ActivityTracker.ts:144-147 | a working screen is what snapshots call working at once, a blocked one what they call blocked, and any hold is closed |
| `ActivityRuns.EngagedIsAnnounced` | packages/tui-supervisor/src/ActivityTracker.ts:144-328 | the last notification says it too, unless before the reading the byte rung had just repeated `active`, the last notification of another rung was the screen's with the same status, and less than fifteen seconds have passed; exactly then it goes unannounced |
| `ActivityRuns.HiddenWorking` | packages/tui-supervisor/src/ActivityTracker.ts:232-328 | a run where it does not: the screen has just been read as working, and the last notification is `active` by bytes without a status |
| `ActivityNotices.ReadingsAlwaysKept` | packages/tui-supervisor/src/ActivityTracker.ts:131-147 | in every run the tracker reads the last screen reading, the last known title and whether a title was ever trusted |
| `ActivityNotices.NoticeExact` | packages/tui-supervisor/src/ActivityTracker.ts:207-328 | in every run every event notifies exactly what the events and notifications before it tell: the rung that decides, whether its reading is held back, and whether it is new or due; with the state, bytes, status and rung of that reading, blocked exactly for a blocked one and working exactly for a working one |
| `ActivityNotices.HistoryTold` | packages/tui-supervisor/src/ActivityTracker.ts:207-328 | what an event adds to the readings, checks and notifications that tell the next |
| `ActivityNotices.FlipIsNotified` | packages/tui-supervisor/src/ActivityTracker.ts:243-246 | a change between working and blocked while active is notified at that evaluation, with the new status |
| `ActivityNotices.RecheckExact` | packages/tui-supervisor/src/ActivityTracker.ts:261-291 | in every run the recheck is armed for a tenth of a second after the last reading held back, and for nothing else |
| `ActivityRuns.HoldAlwaysTracked` | packages/tui-supervisor/src/ActivityTracker.ts:261-291 | in every run the hold is told by the verdicts alone: it counts the last idle readings of an active tracker held back in a row, opened at the first of them, and under an idle screen a recheck is armed |
| `ActivityRuns.IdleIsConfirmed` | packages/tui-supervisor/src/ActivityTracker.ts:45-55 | in every run a screen publishes active to idle exactly at an evaluation reading idle or error after readings held back in a row that confirm it: two of them, or the first 700 ms ago |
| `ActivityRuns.IdleEndsHold` | packages/tui-supervisor/src/ActivityTracker.ts:240-275 | the same told by the hold: it was open, nothing but idle readings of the screen was applied since it opened, and with this one there are three, or it opened 700 ms ago |
| `ActivityHolds.OnlyBytesWhileHeld` | packages/tui-supervisor/src/ActivityTracker.ts:232-328 | in every run only the byte rung notifies while a hold is open |
| `ActivityHolds.OneStretchExact` | packages/tui-supervisor/src/ActivityTracker.ts:232-328 | so the readings of a hold fall in one stretch of activity exactly when the byte rung has not notified idle since it opened |
| `ActivityHolds.AlwaysReadHolds` | packages/tui-supervisor/src/ActivityTracker.ts:207-275 | in a run whose screen is never read as unknown they always do, and nothing is notified while a hold is open |
| `ActivityHolds.SingleReadingPublishes` | packages/tui-supervisor/src/ActivityTracker.ts:261-328 | a run where they do not: a hold outlives its activity, and one idle reading ends the next |
| `ActivityRuns.IdleByThirdEvaluation` | packages/tui-supervisor/src/ActivityTracker.ts:261-275 | while the screen stays at rest the third evaluation at the latest has published idle |
| `ActivityEcho.EchoNeverPromotes` | packages/tui-supervisor/src/ActivityTracker.ts:298-318 | bytes promote idle to active only on two rung evaluations in a row, each with output accepted since the one before and the threshold met by the accepted output in its window |
| `ActivityNotices.StreakAlwaysTold` | packages/tui-supervisor/src/ActivityTracker.ts:298-318 | in every run the streak counts the evaluations in a row that found enough fresh output; NoticeExact has bytes promote exactly at the second |
| `ActivityEcho.SilenceEndsActivity` | packages/tui-supervisor/src/ActivityTracker.ts:305-324 | bytes end activity exactly when this evaluation finds too little and the last sufficient one is old enough |
| `ActivityEcho.GraceIsHistory` | packages/tui-supervisor/src/ActivityTracker.ts:122-172 | an output is dropped exactly when some earlier keystroke or resize covers its time |
| `ActivityEcho.EchoStaysIdle` | packages/tui-supervisor/src/ActivityTracker.ts:16-33 | a run of nothing but echo, with no working or blocked reading, never leaves idle |
| `ActivityEcho.TitleTakesAuthority` | packages/tui-supervisor/src/ActivityTracker.ts:131-137 | after a working or blocked title no notification is decided by bytes |
| `HubClient.Client.TryConnect` | packages/tui-supervisor/src/HubClient.ts:102-147 | a socket is created, or the failure schedules a reconnect; nothing after close |
| `HubClient.Client.HandleOpen` | packages/tui-supervisor/src/HubClient.ts:111-127 | register is the first frame, with the session token if there is one |
| `HubClient.Client.HandleRegistered` | packages/tui-supervisor/src/HubClient.ts:188-218 | the whole handling of `registered` |
| `HubClient.Client.ReportChildExit` | packages/tui-supervisor/src/HubClient.ts:165-173 | sent on a registered open socket, else kept as the one pending report |
| `HubClient.Client.HandleClose` | packages/tui-supervisor/src/HubClient.ts:293-298 | drops registration, heartbeat and socket, and schedules a reconnect |
| `HubClient.Client.HandleReconnectTimer` | packages/tui-supervisor/src/HubClient.ts:300-312 | the timer clears itself and connects again |
| `HubClient.Client.HandleHeartbeat` | packages/tui-supervisor/src/HubClient.ts:280-286 | one heartbeat frame on an open socket |
| `HubClient.Client.Reschedule` | packages/tui-supervisor/src/HubClient.ts:300-312 | arms one reconnect timer with the backoff of the attempts so far |
| `HubClient.Client.Shutdown` | packages/tui-supervisor/src/HubClient.ts:175-183 | closes for good and clears the timers |
| `HubRuns.ExactlyOneLifeline` | packages/tui-supervisor/src/HubClient.ts:102-147 | after the start and until shutdown there is a socket or an armed reconnect timer, never both or neither; the heartbeat runs exactly while registered |
| `HubRuns.ClosedForGood` | packages/tui-supervisor/src/HubClient.ts:175-183 | after shutdown no socket is ever created |
| `HubRuns.BackoffSchedule` | packages/tui-supervisor/src/HubClient.ts:300-312 | the k-th wait since the last registration is the base doubled k times, up to the maximum |
| `HubRuns.WaitsDouble` | packages/tui-supervisor/src/HubClient.ts:300-312 | the first wait armed since the last registration is the base, and each doubles the one before, up to the maximum |
| `HubRuns.RegisterCarriesLatest` | packages/tui-supervisor/src/HubClient.ts:81-121 | every register carries the latest session token, and the bootstrap token only while none has been issued |
| `HubRuns.NothingBeforeRegistered` | packages/tui-supervisor/src/HubClient.ts:149-163 | no activity or ready frame is handed to a socket before `registered` was processed on it |
| `HubFrames.AlwaysKept` | packages/tui-supervisor/src/HubClient.ts:102-218 | in every run the number of sockets, whether the newest is open and registered, and the pending exit are told by the events |
| `HubFrames.FramesExact` | packages/tui-supervisor/src/HubClient.ts:102-298 | in every run every event hands to the sockets exactly the frames the events before it tell, with their contents and in their order |
| `HubNotices.AtMostOnce` | packages/tui-supervisor/src/HubClient.ts:165-205 | a child exit is sent at most once and never before it is reported |
| `HubNotices.ExitDelivery` | packages/tui-supervisor/src/HubClient.ts:165-205 | in every run, whatever follows a report: it has been sent exactly once if the connection was registered and open at the report, or if no other exit is reported before the next registration and that one is processed on an open socket; otherwise never |
| `HubNotices.DroppedExit` | packages/tui-supervisor/src/HubClient.ts:165-205 | a run that drops the report: the registration it waits for is processed on a socket that has left the open state |
| `HubNotices.OverwrittenExit` | packages/tui-supervisor/src/HubClient.ts:165-173 | a run that overwrites it: a second exit is reported before the registration |
| `PromptInjection.Injector.HandleInject` | packages/tui-supervisor/src/HubClient.ts:226-233 | the first prompt is remembered, and the command starts to wait |
| `PromptInjection.Injector.HandleResume` | packages/tui-supervisor/src/HubClient.ts:233-268 | paste, then acknowledge, or wait to submit; a failed write is acknowledged as failed |
| `PromptInjection.Injector.HandleSubmit` | packages/tui-supervisor/src/HubClient.ts:235-268 | the submitting key, then the acknowledgement |
| `PromptInjection.EveryCommandFollowsScript` | packages/tui-supervisor/src/HubClient.ts:219-268 | however commands interleave, each pastes, submits after the long delay (first) or the short one, and is acknowledged once, last |
| `PromptInjection.CommandsAreMessages` | packages/tui-supervisor/src/HubClient.ts:226-233 | in every run the commands are the messages, one by one: id, text, whether to submit, and when |
| `PromptInjection.EffectsSayMessages` | packages/tui-supervisor/src/HubClient.ts:229-268 | every paste carries the text of its message, every acknowledgement its id, and the submitting key is written only where asked for |
| `PromptInjection.EffectsExact` | packages/tui-supervisor/src/HubClient.ts:229-268 | every event does exactly what its message asks for, and a failed write is acknowledged as failed |
| `PromptInjection.NoEarlyPaste` | packages/tui-supervisor/src/HubClient.ts:229-234 | no prompt is pasted before the latch or before its command has waited its longest |
| `PromptInjection.GateRun` | packages/tui-supervisor/src/HubClient.ts:233 | the gate under injection is in a gate run in which every command makes exactly one call to wait |
| `PromptInjection.EachWaitResolvesOnce` | packages/tui-supervisor/src/HubClient.ts:229-234 | in every run each command's wait is pending or resolved, once; when the gate's timers are on time it is resolved at the earlier of the latch and the longest wait |
| `Supervisor.Process.constructor` | packages/tui-supervisor/src/main.ts:24-91 | how the parts are created, connected and started |
| `Supervisor.Process.HandleData` | packages/tui-supervisor/src/main.ts:32-42 | child output reaches tracker, title tracker and gate |
| `Supervisor.Process.HandleScreen` | packages/tui-supervisor/src/main.ts:53 | a screen reading reaches the tracker, its notification the hub |
| `Supervisor.Process.HandleTick` | packages/tui-supervisor/src/main.ts:76-78 | a tick's notification reaches the hub |
| `Supervisor.Process.HandleRecheck` | packages/tui-supervisor/src/main.ts:76-78 | the notification of an idle-hold recheck reaches the hub |
| `Supervisor.Process.HandleResize` | packages/tui-supervisor/src/main.ts:43-46 | a resize reaches the tracker |
| `Supervisor.Process.HandleInput` | packages/tui-supervisor/src/main.ts:49-51 | a keystroke reaches the tracker |
| `Supervisor.Process.HandleExit` | packages/tui-supervisor/src/main.ts:79-81 | a child exit reaches the hub |
| `Supervisor.Process.HandleQuiet` | packages/tui-supervisor/src/main.ts:82 | the latch reaches the hub |
| `Supervisor.Process.HandleFallback` | packages/tui-supervisor/src/main.ts:82 | the same for the fallback timer |
| `Supervisor.Process.HandleRegistered` | packages/tui-supervisor/src/main.ts:73-74 | the hub reads gate and tracker when it is registered |
| `SupervisorRuns.HubKnowsTheState` | packages/tui-supervisor/src/main.ts:72-83 | in every run, across reconnects, the last activity frame on an open registered connection carries the tracker's state |
| `SupervisorNotices.NoticesAreHanded` | packages/tui-supervisor/src/main.ts:72-83 | in every run each notification of the tracker is handed to the hub at once with its state, bytes, status and rung while the connection is open and registered, and nothing else makes one |
| `SupervisorNotices.TitlesRun` | packages/tui-supervisor/src/main.ts:32-42 | in every run the titles are those of all the child's output, in order |
| `SupervisorRuns.ReadyExactlyOnce` | packages/tui-supervisor/src/main.ts:73-82 | an open registered connection has carried exactly one ready frame if the gate has latched, none otherwise |
| `SupervisorRuns.ReadyOnEverySocket` | packages/tui-supervisor/src/main.ts:73-82 | in every run every socket there ever was has carried exactly one ready frame if at some moment the gate had latched while it was registered and open, none otherwise |
| `SupervisorParts.TrackerRun` | packages/tui-supervisor/src/main.ts:32-53 | the tracker of a supervisor run is in a tracker run |
| `SupervisorParts.GateRun` | packages/tui-supervisor/src/main.ts:32-42 | the gate of a supervisor run is in a gate run |
| `SupervisorParts.HubRun` | packages/tui-supervisor/src/main.ts:57-83 | the hub client of a supervisor run is in a hub run |
| `SupervisorParts.ReadyIffBooted` | packages/tui-supervisor/src/main.ts:32-42 | in every supervisor run the gate is ready only after a long enough silence of the child, and exactly then when its timers are on time and none is due |
| `SupervisorParts.RegistrationReports` | packages/tui-supervisor/src/main.ts:73-74 | in every run a registration on an open socket ends with a frame carrying the tracker's state, the status of the last notification not decided by bytes and the rung of the last one that was no byte repetition; it says what the tracker last said exactly under the condition of SnapshotExact |
| `SupervisorParts.StaleRegistration` | packages/tui-supervisor/src/main.ts:73-74 | a run where it tells the hub `idle` together with the status `working` |
| `ScreenRules.SplitPromptBox` | packages/shared/src/agentScreenRules.ts:200-224 | the scan from the bottom computes the split |
| `ScreenRules.SplitAtLastRules` | packages/shared/src/agentScreenRules.ts:200-224 | the split cuts at the last two rule lines: the box between them, above the last non-blank rows before them (all of them when there are no more than asked for), below the non-blank rows after them |
| `ScreenRules.SplitWithoutBox` | packages/shared/src/agentScreenRules.ts:213-215 | with fewer than two rule lines the last non-blank rows are above, and nothing else is kept |
| `ScreenRules.BoxOrNot` | packages/shared/src/agentScreenRules.ts:200-224 | the two cases cover every screen |
| `ScreenRules.NonBlankAppend` | packages/shared/src/agentScreenRules.ts:213-223 | the rows that are not blank are kept one by one, in their order |
| `ScreenRules.NonBlankOne` | packages/shared/src/agentScreenRules.ts:213-223 | a row is dropped exactly when it is nothing but white space |
| `ScreenRules.RuleLineTold` | packages/shared/src/agentScreenRules.ts:201 | a rule line is ten rule marks or more with only white space around them |
| `ScreenRules.PromptLineTold` | packages/shared/src/agentScreenRules.ts:32 | a prompt line is white space, then the prompt mark |
| `ScreenRules.Classify` | packages/shared/src/agentScreenRules.ts:171-187 | the loop computes the verdict of the best rule |
| `ScreenRules.BestShape` | packages/shared/src/agentScreenRules.ts:175-184 | the best rule matches and no matching rule has a higher priority |
| `ScreenRules.TablesOrderFree` | packages/shared/src/agentScreenRules.ts:40-169 | any reordering of either table classifies every screen alike |
| `ScreenRules.ClaudePrecedence` | packages/shared/src/agentScreenRules.ts:40-135 | the priorities amount to: transcript, blocked, working, error, idle, unknown |
| `ScreenRules.CodexPrecedence` | packages/shared/src/agentScreenRules.ts:137-169 | the priorities amount to: blocked, working, unknown |
| `ScreenRules.ClaudeIdleNeedsPrompt` | packages/shared/src/agentScreenRules.ts:124-224 | Claude is idle only with a prompt line between the last two rule lines of the screen |
| `ScreenRules.CodexNeverIdle` | packages/shared/src/agentScreenRules.ts:137-169 | Codex is never idle |
| `TitleStateTracker.MarkerIsClassified` | packages/shared/src/agentScreenRules.ts:189-198 | every title with a marker is classified: blocked, working or idle by what it says |
| `ShellQuoting.QuoteRoundTrip` | packages/tui-supervisor/src/PtyProxy.ts:23-25 | a shell reads a quoted value as the value, then whatever follows |
| `ShellQuoting.QuotedIsOneWord` | packages/tui-supervisor/src/PtyProxy.ts:23-25 | a quoted value is exactly one word |
| `ShellQuoting.LoginCommandRestores` | packages/tui-supervisor/src/PtyProxy.ts:48-54 | a shell reads the built command as one export restoring both variables, followed by the command unchanged |
| `EnvFile.ParseEnvFile` | packages/tui-supervisor/src/env.ts:74-86 | the loop over the lines computes the bindings |
| `EnvFile.DecodeEscaped` | packages/tui-supervisor/src/env.ts:88-90 | decoding undoes backslash escaping, whatever else is escaped and whatever follows |
| `EnvFile.LoneBackslash` | packages/tui-supervisor/src/env.ts:88-90 | a backslash stays at the end of a value and in front of a line terminator |
| `EnvFile.LineTold` | packages/tui-supervisor/src/env.ts:76-84 | without its outer white space a line binds what is before its first `=` to what is decoded of the rest, and nothing when it is blank, begins with `#` or `=`, or has no `=` |
| `EnvFile.HasBody` | packages/tui-supervisor/src/env.ts:77 | every line has such a body |
| `EnvFile.LinesTold` | packages/tui-supervisor/src/env.ts:76 | the lines of a file are what stands between its line feeds |
| `EnvFile.LastLineCounts` | packages/tui-supervisor/src/env.ts:74-86 | a key has the value of the last line that binds it |
| `EnvFile.NoLineNoValue` | packages/tui-supervisor/src/env.ts:74-86 | and none when no line does |
| `EnvFile.LineRoundTrip` | packages/tui-supervisor/src/env.ts:76-90 | a binding is recovered from its line exactly when its value does not end with white space |
| `EnvFile.FileRoundTrip` | packages/tui-supervisor/src/env.ts:74-90 | a rendered file gives back its bindings, the last one of a key counting |

## Left out

- CaseFold: the host's lower-casing is any function that works on both sides of a backslash separately, makes no backslash and makes nothing empty; what it does to single characters is not modelled.
- RelativeExact: on win32 for absolute paths; relative win32 paths and paths relative to a drive are not covered.
- RejoinExact: win32 paths without a root whose first name reads as a drive are excluded, since normalize moves them.
- JoinPlaceExact: a bare server followed by separators only is not covered.
- JoinAssociative: on win32 not after a bare server; after nothing only the right grouping is stated (NothingFirst).
- ReadyIffBooted: timers fire when due, and an output in the same millisecond as a due timer comes after it; for late timers readiness is still only after a long enough silence (ReadyMeansBooted) and exactly when a latching timer has fired (ReadyIffFired), but that may be later, or be put off by further output.
- EachWaitResolvesOnce: the time of resolution needs timers on time; NoEarlyPaste does not.
- StreamState: excludes empty titles and unfinished titles longer than the carry-over buffer at a cut; StreamExact gives the exact condition for agreement after every push.
- Strings are sequences of characters; lengths in UTF-16 code units differ outside the basic plane, which matters only for the 4096 limit.
- Connections: the `ws` library is a socket that opens once, may leave the open state, and closes once; sends on an open socket succeed. JSON, the message bodies of the hub and malformed messages are not modelled.
- Heartbeat: that it runs while registered is stated, its period is not.
- Commands: `send_keys` and `interrupt` write once and acknowledge; they are left out beside `inject_prompt`.
- Injection in the supervisor: the process of `Supervisor` has no prompts. Prompt injection is composed with the gate only, so that a paste opens the input grace and that an acknowledgement is a frame, dropped when the socket is not open, are not stated.
- Promises: a resolved wait and the code after it are two events, with anything between them.
- Screen rules: the texts the rules look for are arbitrary predicates, except the prompt line; the rule table itself, its priorities, states and regions are the source's.
- ScreenStateTracker: the headless terminal and its debounce; screen readings are arbitrary events.
- PtyProxy: the child process, standard streams and signals; only the quoting functions are modelled.
- Shell: `ReadWord` covers backslash and single quotes outside expansions, which is all the built prefix uses.
- env.ts: choosing and reading the file; keys that are special property names of the host language's objects.
- HubClient.close is modelled although main.ts never calls it, and is therefore not an event of the supervisor.
- cli, keymap, modelId, windowId, windowKey, mux, taskServer, hostCapabilities, the server and the frontend: lookups, input and output, or user interface.
