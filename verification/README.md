# Desktop layout: delivery, placement and display data

Four Python modules move a user's windows to where a layout says they belong:

- `lib/fluxbox_remote.py` delivers commands to the Fluxbox window manager through one
  property of the root window, which holds one command and is overwritten by the next.
- `lib/window_placement.py` applies a layout rule, checks its windows against what the rule
  promises, and sends the rule again to see that nothing moves.
- `lib/libdpy.py` probes and caches display data, orders the screens and matches monitors
  to them.
- `lib/desktop_layout.py` collects a layout file with everything it includes.

This project models them in Dafny and proves what they promise. `dafny verify dfyconfig.toml`
checks all of it.

| file | contents |
|---|---|
| `Options.dfy`, `Sorting.dfy` | optional values; stable sorting and string order |
| `MacroCommands.dfy` | the `MacroCmd` brace splitter and its printer |
| `RuleSummary.dfy` | what a rule's commands promise |
| `Placement.dfy`, `PlacementLaws.dfy` | geometry checks, Fluxbox performing a rule, and the laws joining the two |
| `Mailbox.dfy` | the mailbox protocol as values: steps, runs, invariants |
| `WindowList.dfy` | xprop's text and the ids read from it |
| `FluxboxRemote.dfy` | the polling methods of `lib/fluxbox_remote.py` on a mutable display |
| `RuleVerdicts.dfy` | what the outcome of a rule means |
| `WindowPlacement.dfy` | the methods of `lib/window_placement.py` |
| `DisplayCache.dfy`, `Screens.dfy`, `Monitors.dfy`, `Hwinfo.dfy`, `Edid.dfy` | the parts of `lib/libdpy.py` |
| `LayoutFiles.dfy` | the include closure of `lib/desktop_layout.py` |

## Assumptions

- One script writes the command slot. The code has no lock, and `Mailbox.WriteConservesIff`
  shows that a write to a full slot loses a command.
- Fluxbox executes one command at a time, reads and deletes the slot in one step, and writes
  a pattern test's result once, while executing it. Its steps and the clock's may fall
  anywhere between two steps of the script; the methods of `FluxboxRemote.Display` take an
  arbitrary run of them before each step of their own.
- Every poll of the slot, look at the result, snapshot and move is recorded in a ghost field
  by the one method that makes it; what the larger methods promise is stated of these records.
- `send` returns when a command was read, which may be before it was executed. The
  certification theorem therefore names the condition it needs: both snapshots of the last
  attempt were taken with Fluxbox idle, and nothing but the commands read in between changed
  the windows (`RuleVerdicts.Undisturbed`).
- Fluxbox's `SetHead` keeps the window's offset from its nearest head, `Stick` toggles a flag
  and a stuck window remembers its own workspace. Which head counts as nearest to a point on
  none, and what all other commands do, are arbitrary functions.

## Where the code promises more than it keeps

- Applying a rule is meant to prove that its windows ended up placed
  (`lib/window_placement.py:1-10`). For every rule, a clean outcome is given to windows that
  the rule would visibly move from where the last attempt first saw them exactly when they met
  the promise there and that attempt's send was lost (`RuleVerdicts.CleanButMovableIff`). For a
  rule that is idempotent and effective from where its windows start, a clean outcome leaves it
  unapplied exactly when the windows met the promise before, the rule would move them, and
  neither of the first two sends took effect (`RuleVerdicts.FalselyCleanIff`). Rules of
  commands for existing heads, workspaces and the stuck state that name at most one head are
  never reported clean wrongly (`RuleVerdicts.OneHeadCleanIsRight`), nor are those that name
  several, if heads do not overlap and the windows have room on all heads named where they
  start (`RuleVerdicts.FlatCleanIsRight`). Without that room they can be
  (`RuleVerdicts.UnfitRuleIsReportedClean`), and so can rules that move their windows by other
  commands, once and for all (`RuleVerdicts.LostMoveIsReportedClean`) or on each repeat
  (`RuleVerdicts.ShiftIsReportedClean`).
- `matching_windows` is sure to return its own result exactly when no earlier pattern test is
  unread or unanswered at its start (`Mailbox.FreshIffNoTestPending`). Its normal returns keep
  that condition, and so does all the rest of `apply_rule`. A timeout of the test itself can
  break it (`Mailbox.TimeoutLeavesTestPending`), and as `bin/desktop-layout:84-93` goes on to
  the next rule, that one can be given the abandoned test's windows
  (`Mailbox.TimeoutThenStale`).
- Combining several commands into one macro, any macros among them balanced, keeps them if
  and only if the plain ones are balanced too (`MacroCommands.CombineKeepsIff`).
- Reading ids back from Fluxbox's answer is exact if and only if no window title holds an
  escaped newline followed by `0x` (`WindowList.IdsReadBackIff`).
- A rule of commands for existing heads and workspaces, guarded sticks and unsticks and bare
  `Stick` toggles settles if and only if its SetHead commands alone do, and it has a guarded
  stick or unstick or an even number of toggles (`PlacementLaws.RuleSettlesIff`). The SetHead commands settle for windows with room on the
  heads named, if these are disjoint, and need not otherwise (`PlacementLaws.UnfitRuleDrifts`);
  for a single one the exact condition is `PlacementLaws.OneHeadRuleIff`. A stuck promise is
  kept if and only if an even number of toggles follows the last guarded command
  (`PlacementLaws.RuleMeetsIff`).
- What a macro inside a macro holds is performed but not promised
  (`Placement.NestedMacroIsNotPromised`).
- `SetHead` never brings a window that is off every head onto the wanted one of equal-size
  heads, so moving it first is necessary (`Placement.StrandedWindowStaysOff`).
- Hybrid monitor matching that does not fall back, on screens with distinct names, lists each
  of them exactly once if and only if no serial with a screen is listed twice and not both 0 and the panel's own serial are listed
  (`Monitors.SerialsAppearOnceIff`).

## Model

| member | source | states |
|---|---|---|
| MacroCommands.TopLevelCommands | lib/window_placement.py:56-70 | the single pass returns the parts given by a recursive reading of the text |
| MacroCommands.PartsAreTheTopLevelGroups | lib/window_placement.py:60-70 | on every macro text, unbalanced ones included, the parts are exactly the texts between a brace opened at depth 0 and the brace that returns to depth 0, all of them, balanced, disjoint and in source order |
| MacroCommands.PlainCommandIsWhole | lib/window_placement.py:58-59 | a command that does not start with MacroCmd and a blank is its own only part |
| MacroCommands.MacroRoundTrip | lib/window_placement.py:56-70 | printing any list of balanced plain commands as one macro and splitting it gives back exactly that list, at any nesting depth |
| MacroCommands.CombineKeepsEveryCommand | bin/desktop-layout:41-58 | combining plain and macro commands into one flat macro keeps the sequence of commands performed |
| MacroCommands.CombineKeepsIff | bin/desktop-layout:41-58 | for every list of commands but a single one, with balanced macros among them: the combined macro performs exactly the parts of the commands if and only if the plain commands are balanced too |
| MacroCommands.RoundTripIff | lib/window_placement.py:56-70 | a list of plain commands is read back from its macro if and only if each of them is balanced |
| RuleSummary.Expect | lib/window_placement.py:73-85 | the overwriting loop yields, for each field, the last naming command of the whole rule |
| RuleSummary.SetHeadReadsBack | lib/desktop_layout.py:144-144 | the SetHead command written for a head is read back as that head |
| RuleSummary.WorkspaceReadsBack | lib/window_placement.py:73-85 | a SendToWorkspace command is read back as its number |
| RuleSummary.NumberAfterIff | lib/window_placement.py:73-85 | a command names a number exactly when it is the word and then one or more decimal digits, and then that number |
| RuleSummary.LeadingZero | lib/window_placement.py:73-85 | leading zeros of such a number do not matter |
| RuleSummary.LastNamedWins | lib/window_placement.py:73-85 | a field is unset exactly when no part names it, and otherwise holds the value of the part after which no part names it |
| RuleSummary.SummaryIsHomomorphic | lib/window_placement.py:73-85 | the promise of two rules in a row is the first one's overridden field by field by the second one's, with macro splitting |
| RuleSummary.PromiseOfCombinedRule | bin/desktop-layout:117-126 | the promise read from the separate commands is that of the combined macro sent to Fluxbox |
| Placement.HeadOfIsLowest | lib/window_placement.py:114-119 | a window is on head n exactly when n is the lowest-numbered head that covers its centre |
| Placement.NoHeadIffUncovered | lib/window_placement.py:114-119 | a window is on no head exactly when no head covers its centre |
| Placement.CentreIsMiddle | lib/window_placement.py:115-115 | the centre is in the middle of the window, or one pixel nearer to the left or the top |
| Placement.CoversItsPixels | lib/window_placement.py:117-117 | a head of one pixel covers just its corner, and cutting a head by columns or rows splits what it covers without overlap |
| Placement.Problems | lib/window_placement.py:122-138 | the problems found, in order, for a closed or open window |
| Placement.Complaints | lib/window_placement.py:122-138 | there is no problem exactly when the window is closed or meets the promise; a stuck window is on every workspace |
| Placement.ComplaintsIff | lib/window_placement.py:122-138 | an open window gets exactly the problems that are true of it against the promise, with its title and what was found, each once, in the order of the checks; a closed one gets none |
| Placement.SamePlacementIff | lib/window_placement.py:35-43 | two snapshots of a window compare equal exactly when desktop, position and size agree, whatever the titles |
| Placement.VerdictIgnoresTitle | lib/window_placement.py:35-43 | snapshots that compare equal get the same verdict, whatever their titles |
| Placement.SetHeadLandsIff | lib/window_placement.py:141-147 | SetHead lands on the wanted head exactly when the window's offset fits it and no lower-numbered head covers the new centre |
| Placement.StrandedWindowStaysOff | lib/window_placement.py:143-147 | on equal-size heads SetHead never brings a window that is on no head onto the wanted head, whichever head is nearest |
| Placement.PerformedAsReadIff | lib/window_placement.py:56-70 | Fluxbox performs exactly the parts the rule checker reads if and only if no part is itself a macro |
| Placement.CombinedRuleIsPerformedAsRead | bin/desktop-layout:117-126 | performing the combined macro performs the parts of the rule's commands in order |
| Placement.GuardedToggleSticks | lib/window_placement.py:19-20 | toggling the windows that match Stuck=no, or Stuck=yes, sets the stuck state to what the rule checker reads from that command |
| Placement.NestedMacroIsNotPromised | lib/window_placement.py:73-85 | among any other commands and at any depth, all contents of a macro inside a macro are performed, while the promise is that of the plain parts alone |
| PlacementLaws.RuleFactors | lib/window_placement.py:73-85 | on every window and any heads, a sequence of head, workspace, stuck and bare toggle commands does to the position what its SetHead commands alone do, sets the promised workspace and stuck state, and flips the latter when an odd number of toggles is left over |
| PlacementLaws.RuleMeetsIff | lib/window_placement.py:73-138 | the rule checker finds nothing after such a rule if and only if its SetHead commands alone end on the promised head, and no odd number of toggles is left over when a stuck state is promised |
| PlacementLaws.OneHeadRuleIff | lib/window_placement.py:141-147 | with one SetHead, on a window on a head: the promise is met if and only if the offset fits the named head and no lower-numbered head covers the new centre; the rule settles if and only if the head nearest to the new centre has the named head's corner; toggles add their own conditions to both |
| PlacementLaws.MetStaysIff | lib/window_placement.py:3-9 | on any heads, a rule whose SetHead commands name one head visibly leaves a window that meets the promise where it is, if and only if no odd number of toggles is left over |
| PlacementLaws.RuleIsItsSummary | lib/window_placement.py:73-85 | on disjoint heads, from an offset that fits every head named, such commands in any number and order equal one move to the promised head and setting the promised fields, the stuck state flipped when an odd number of toggles is left over |
| PlacementLaws.UnfitRuleDrifts | lib/window_placement.py:3-9 | without such room a rule can meet its promise all the time and not settle: naming a narrow head and then a wide one moves a window on the wide one a step to the left on each repeat |
| PlacementLaws.FlipsCountsToggles | lib/window_placement.py:19-20 | the toggles left over are those after the last guarded stick or unstick, or all of them without one |
| PlacementLaws.RuleMeetsItsSummaryIff | lib/window_placement.py:73-138 | on disjoint heads, after any valid rule from an offset that fits every head named, with arbitrary other commands that keep the window on its head at such an offset, the rule checker has nothing to complain about if and only if no stuck state is promised or an even number of toggles follows the last guarded command |
| PlacementLaws.RuleSettlesIff | lib/window_placement.py:3-9 | on every window and any heads, a rule of placing commands changes nothing when repeated if and only if its SetHead commands alone change nothing when repeated and it has a guarded stick or unstick or an even number of bare toggles; otherwise the repeat shows |
| PlacementLaws.BroughtIsRoomy | lib/window_placement.py:141-154 | a window on a head with room on the heads named, or brought back to the corner of one and small enough for them, has its centre on a head at an offset that fits them all |
| PlacementLaws.CanStartWithRoom | lib/window_placement.py:141-154 | so every such window can start; on heads of equal size every window on a head has room |
| PlacementLaws.PlacedRuleIsCertified | lib/window_placement.py:73-154 | on disjoint heads of any sizes, for every window that has room on the heads named where it starts: bringing it back and performing the rule meets the promise, and performing it again changes nothing |
| PlacementLaws.MetIsPlaced | lib/window_placement.py:122-138 | a window that shows what the rule promises is not visibly moved by the promised fields |
| Mailbox.LaterKeeps | lib/fluxbox_remote.py:3-9 | however Fluxbox's steps fall, nothing sent is lost, repeated or reordered, and the slot can only be read or stay |
| Mailbox.WriteConservesIff | lib/fluxbox_remote.py:68-77 | a write keeps the account of every command exactly when it finds the slot empty |
| Mailbox.EveryRunConserves | lib/fluxbox_remote.py:24-77 | over every interleaving of a script that writes only after seeing the slot empty: sent is read in order and once, plus the slot |
| Mailbox.BareSendsKeepOnlyTheLast | lib/fluxbox_remote.py:3-9 | of a series sent without waiting to a stalled Fluxbox, only the last command can ever be read |
| Mailbox.FetchConserves | lib/fluxbox_remote.py:43-65 | a pattern test sends exactly its own command, after everything sent before it was read |
| Mailbox.FetchIsFresh | lib/fluxbox_remote.py:43-65 | with no earlier test pending the result found is the test's own under every interleaving, and no test is pending afterwards |
| Mailbox.PendingTestGoesStale | lib/fluxbox_remote.py:43-65 | with a test pending at the start some interleaving returns its stale result |
| Mailbox.FreshIffNoTestPending | lib/fluxbox_remote.py:43-65 | the result is certain to be the test's own exactly when no test was pending at the start |
| Mailbox.TimeoutLeavesTestPending | lib/fluxbox_remote.py:43-76 | from every mailbox without a pending test, for every timeout, a run in which the test is given up, unread or read but unanswered, leaves it pending |
| Mailbox.TimeoutThenStale | lib/fluxbox_remote.py:43-76 | after such a timeout the next test can return the abandoned one's result |
| WindowList.TypedPrefixMeansPresent | lib/fluxbox_remote.py:24-31 | the typed prefix is printed exactly when the property is present, whatever its value says |
| WindowList.IdsReadBackIff | lib/fluxbox_remote.py:60-65 | parsing the printed answer returns exactly the listed ids in order if and only if no title holds an escaped newline followed by 0x |
| WindowList.ReadingIff | lib/fluxbox_remote.py:61-65 | for every answer: the pattern is reported as invalid exactly when the answer starts with -1; otherwise reading fails exactly when a line starts with 0x and what stands in front of its first tab is no hexadecimal number |
| WindowList.HexRoundTrip | lib/fluxbox_remote.py:64-65 | reading a printed hexadecimal id gives the id |
| WindowList.HexIgnoresCase | lib/fluxbox_remote.py:64-65 | capital hexadecimal digits read the same |
| FluxboxRemote.Display.CommandPending | lib/fluxbox_remote.py:24-31 | true exactly when the slot holds a command at the time of the poll |
| FluxboxRemote.Display.WaitUntilConsumed | lib/fluxbox_remote.py:34-40 | the recorded polls, at most ceil(timeout/poll interval)+1, come one after another and all but the last find a command; true with the last one empty, false with it full after the deadline |
| FluxboxRemote.PollsFillTheTimeout | lib/fluxbox_remote.py:34-40 | the bound on the polls is exact: the last but one may still begin before the timeout, the last one cannot |
| FluxboxRemote.Display.Send | lib/fluxbox_remote.py:68-77 | normal return: written to an empty slot and read, after everything before; first exception: never written; second: written once with everything before it read; both only after the timeout with the last recorded poll finding the slot full |
| FluxboxRemote.Display.SendSeries | bin/desktop-layout:76-81 | over a series that goes on after failures, what reached the mailbox is the written commands in order, the unread ones are reported, and a delivered command leaves none before it unread |
| FluxboxRemote.UnreadIff | bin/desktop-layout:76-81 | a command is reported exactly when one of its sends did not end with it read |
| FluxboxRemote.EachAccounted | bin/desktop-layout:76-81 | as many commands are reported as sends failed, and as many were written as were delivered or timed out after writing |
| FluxboxRemote.Display.AwaitResult | lib/fluxbox_remote.py:49-59 | the recorded looks, bounded like the polls, all but the last find no result; success with the last one's result, failure only after the deadline |
| FluxboxRemote.Display.MatchingWindows | lib/fluxbox_remote.py:43-65 | a normal return is the parsed text of the last recorded look, taken after its own test was read; with no test pending before it is its own result, and none is pending after; a test never written leaves none pending either; a timeout after writing is one that may |
| RuleVerdicts.CleanIff | lib/window_placement.py:182-191 | an attempt finds nothing exactly when every listed window met the promise and none moved on the repeat |
| RuleVerdicts.FoundIff | lib/window_placement.py:182-191 | an attempt finds exactly the problems of the listed windows where it first saw them, and those that had another desktop, position or size the second time, with both geometries |
| RuleVerdicts.ListedInOrder | lib/window_placement.py:184-191 | problems and moves are each listed window by window |
| RuleVerdicts.ComplaintsFirst | lib/window_placement.py:184-191 | all problems are listed before all moves |
| RuleVerdicts.RetitledIsUnmoved | lib/window_placement.py:164-191 | windows whose titles alone change between two snapshots have settled and have not moved |
| RuleVerdicts.FoundIgnoresTitles | lib/window_placement.py:182-191 | whether an attempt finds something does not depend on any title |
| RuleVerdicts.RepairsAreDiagnosed | lib/window_placement.py:46-53 | repairs are counted exactly when the first attempt's findings are kept, for any number of attempts |
| RuleVerdicts.CleanOutcomeCertifies | lib/window_placement.py:170-196 | a clean outcome means that every window in both final snapshots meets the promise before and after the repeat and shows a fixed point of the rule, whose effect may depend on all Fluxbox holds about the windows |
| RuleVerdicts.RepairCountIsLostSends | lib/window_placement.py:177-196 | with windows out of place at the start, repairs is the number of sends without effect before the first effective one, capped at the attempts, and the outcome is clean exactly below the cap |
| RuleVerdicts.CleanButMovableIff | lib/window_placement.py:177-196 | for every rule, idempotent or not: a clean outcome is given to windows that the rule would visibly move from where the last attempt first saw them exactly when they met the promise there and that attempt's send was lost |
| RuleVerdicts.FalselyCleanIff | lib/window_placement.py:177-196 | for a rule that is idempotent and effective from the start: a clean outcome leaves it unapplied exactly when the promise held before, the rule would still change the windows, and the first two sends had no effect |
| RuleVerdicts.LostRuleIsReportedClean | lib/window_placement.py:177-196 | for every working rule whose promise already holds though it would still change the windows, the run in which all sends are lost is reported clean and unrepaired |
| RuleVerdicts.LostMoveIsReportedClean | lib/window_placement.py:177-196 | such rules exist: one that moves its window to another column promises nothing and is reported clean without ever having moved it, for every number of attempts |
| RuleVerdicts.UnfitRuleIsReportedClean | lib/window_placement.py:177-196 | so is a rule of two SetHead commands on heads of unequal size, where its window does not fit the first |
| RuleVerdicts.LostRepeatIsReportedClean | lib/window_placement.py:177-196 | a rule that moves its windows on every repeat is reported clean, with one repair, after two sends that took effect and one that was lost |
| RuleVerdicts.ShiftIsReportedClean | lib/window_placement.py:177-196 | such rules exist: one that shifts its window would move it again after a clean outcome |
| RuleVerdicts.FlatRuleWorks | lib/window_placement.py:170-196 | every rule of placing commands, combined and sent as one macro, is idempotent and effective on disjoint heads when its windows, where they are brought to, have room on the heads named |
| RuleVerdicts.FlatRuleRepairCount | lib/window_placement.py:170-196 | the exact repair count for every such rule, from its command strings on |
| RuleVerdicts.FlatCleanIsRight | lib/window_placement.py:170-196 | for every such rule a clean outcome is right, whatever sends were lost: the last snapshot shows all windows where the rule puts them |
| RuleVerdicts.OneHeadCleanIsRight | lib/window_placement.py:170-196 | for every rule of placing commands that names one head, on any heads and from any state: after a clean outcome the windows are as promised and the rule would move none, whatever sends were lost |
| WindowPlacement.Desktop.SettledStates | lib/window_placement.py:157-167 | the snapshots recorded, 2 to 35 of them, come one after another, no two neighbours before the last agreeing; the last one is returned and agrees with the one before on all listed windows unless the timeout passed |
| WindowPlacement.RetitledSettles | lib/window_placement.py:164-164 | a change of titles alone does not keep windows from settling |
| WindowPlacement.SnapshotsFillTheTimeout | lib/window_placement.py:159-167 | 35 is exact: the last but one poll may still begin before the timeout, the last one cannot |
| WindowPlacement.StraysIff | lib/window_placement.py:148-154 | the windows brought back are exactly the listed open ones whose centre no head covers |
| WindowPlacement.StraysConcat | lib/window_placement.py:150-154 | they are brought back in the order in which they are listed |
| WindowPlacement.StraysAreBrought | lib/window_placement.py:141-154 | on Fluxbox's windows, the moves of the strays give exactly the state the rule is certified from |
| WindowPlacement.Desktop.BringOntoHead | lib/window_placement.py:141-154 | records one snapshot and then the moves of exactly its strays to the corner of the head, the last head for number 0; fails without a move when there is no head |
| WindowPlacement.Desktop.Try | lib/window_placement.py:182-191 | the snapshots recorded are those of one settling, a send of the rule, and another settling; it finds what the last ones of the two deserve |
| WindowPlacement.Desktop.Certify | lib/window_placement.py:177-196 | the snapshots recorded are those of attempts each starting where the one before ended; the outcome is reached from what each of them found |
| WindowPlacement.Desktop.PlaceWindows | lib/window_placement.py:174-196 | snapshots and moves recorded are those of one course: strays looked for and moved before the first send only for an existing head, the send, then the attempts. Its outcome is their verdict; when a send stays unread the course goes up to it, all attempts before having found something; fails without a head exactly for head 0 with windows and no heads |
| WindowPlacement.Desktop.ApplyRule | lib/window_placement.py:170-196 | the windows are those of the last recorded look at the pattern test's result; from it to the final state everything recorded is one course of the rule, whatever its end, and the outcome is its verdict; a rule reported unread was written; no test is left pending unless the pattern test itself timed out |
| WindowPlacement.HaltedSends | lib/window_placement.py:177-186 | when a send stays unread: the sends before it were all read, it was written at most once, nothing else was, and only the first can find an earlier command in its way |
| WindowPlacement.CourseSends | lib/window_placement.py:170-196 | in every course nothing but the rule is sent, once and then once for each attempt, all of it read; the two snapshots judged in attempt k show the windows after k+1 and k+2 sends |
| WindowPlacement.CleanCourseCertifies | lib/window_placement.py:170-196 | a clean outcome of a course certifies the rule whenever Fluxbox was idle at the last two judged snapshots and nothing else moved the windows |
| WindowPlacement.CourseObserves | lib/window_placement.py:170-196 | with Fluxbox idle at the judged snapshots and each command read performed or lost, they show the windows after the sends they follow, as the verdicts above take them |
| WindowPlacement.FlatCourse | lib/window_placement.py:170-196 | in such a course of a rule of placing commands with room, its moves included: repairs are the sends lost before the first effective one, and a clean outcome is right |
| WindowPlacement.OneHeadCourse | lib/window_placement.py:170-196 | in such a course of a rule of placing commands for one head: after a clean outcome the windows are as promised and the rule would move none |
| DisplayCache.DisplayCaches.Read | lib/libdpy.py:95-107 | reading through the cache changes the files as specified for probed and derived caches, also when a tool or builder fails |
| DisplayCache.DisplayCaches.ClearAll | lib/libdpy.py:56-67 | removes the files and .md5 files of every registered cache |
| DisplayCache.NoStaleReadAfterClear | lib/libdpy.py:56-107 | from any state and after any run since, no read returns data probed before the last clearing |
| DisplayCache.UncachedReadProbes | lib/libdpy.py:77-107 | a read that bypasses the cache returns the tool's output of a moment within it or, for a derived cache, what was built from such an output |
| DisplayCache.CachedReadHits | lib/libdpy.py:95-107 | once a file is there, a cached read returns it as it is and writes nothing, after any run without a clearing or an uncached read of it or of what is built from it, whatever the tools do |
| DisplayCache.CachedReadFills | lib/libdpy.py:95-107 | a cached read of a missing file asks the tool, or builds from the base file that is there without probing |
| DisplayCache.FailedReadKeeps | lib/libdpy.py:95-107 | a read that fails leaves the cache's own file as it was |
| DisplayCache.ReadsItsTool | lib/libdpy.py:110-231 | the screen list is built from xrandr's output, the inxi monitors from inxi's, and all others hold what their own tool said |
| DisplayCache.LayersAgreeOverEveryRun | lib/libdpy.py:47-159 | over every run with failing tools: a derived file is never newer than its base file, is its builder's output for the base file exactly while the base was not written after it, and every .md5 file matches |
| DisplayCache.FallsBehindIff | lib/libdpy.py:95-117 | a derived file falls behind exactly by a successful uncached read of its base or its own uncached read that refreshes the base and then fails to build |
| Sorting.SortIsStable | lib/libdpy.py:135-135 | sorting gives a sorted permutation with ties in their given order |
| Sorting.StableSortIsUnique | lib/libdpy.py:135-135 | any two stable sorts of one input agree |
| Sorting.StringLeIff | lib/desktop_layout.py:75-75 | texts are ordered by their first different character, a text before its continuations |
| Screens.BuildScreens | lib/libdpy.py:129-146 | fails exactly without screens or when a name starts with a digit and is no number; otherwise the stable left-to-right order, numbered from 0, each with its name as converted and its right edge |
| Screens.LabelIff | lib/libdpy.py:137-143 | a name is kept as text exactly when it does not start with a decimal digit; otherwise it is the number it reads as, or there is none |
| Screens.NumberingIsUnique | lib/libdpy.py:135-146 | the ordering and numbering are determined by the screens |
| Screens.GetScreen | lib/libdpy.py:727-733 | the lowest-numbered screen covering x, and failure exactly when none does |
| Screens.TiledLookup | lib/libdpy.py:727-733 | on gapless screens the lookup succeeds exactly on 0 to the total width and agrees with half-open ownership except at shared edges, where it gives the left screen, and the far right edge |
| Monitors.HybridMonitors | lib/libdpy.py:401-479 | the sources are asked in turn; falls back exactly when one raises, hwinfo lists nothing or a matched monitor has no model; ends the program exactly when a source that is asked does; otherwise the matched monitors in order, then the unused screens |
| Monitors.MatchedByItsSerial | lib/libdpy.py:409-454 | a monitor whose serial some screen carries is reported, with its own data, on the last such screen, and one with serial 0 on the first laptop panel |
| Monitors.UnmatchedIff | lib/libdpy.py:419-460 | a monitor is matched to no screen exactly when it has no serial, no screen carries it, or it is 0 and there is no laptop panel |
| Monitors.UnmatchedScreenIsUnknown | lib/libdpy.py:462-473 | a screen without a monitor is listed as unknown, with its EDID serial if it has one |
| Monitors.EntryOfMonitor | lib/libdpy.py:419-473 | matched monitors come in hwinfo's order, in front of all unknown screens |
| Monitors.LeftEntriesConcat | lib/libdpy.py:462-473 | unknown screens come in xrandr's order |
| Monitors.EveryScreenAppears | lib/libdpy.py:409-475 | with distinct names each screen has one entry for each monitor matched to it, or a single unknown one |
| Monitors.EveryEntryIsReal | lib/libdpy.py:419-475 | every entry names a real screen and its size |
| Monitors.MatchedMonitorIsReported | lib/libdpy.py:419-454 | every matched monitor is reported with its own model and serial on its screen |
| Monitors.ExactlyOnceIff | lib/libdpy.py:409-475 | every screen appears exactly once if and only if no two monitors are matched to one screen |
| Monitors.SerialsAppearOnceIff | lib/libdpy.py:409-475 | in terms of the listed serials: every screen appears exactly once if and only if no serial a screen answers to is listed twice and not both 0 and the panel's own serial are listed |
| Hwinfo.ParseMonitors | lib/libdpy.py:229-295 | the single pass equals splitting at headers, folding each block and dropping blocks without a key; it raises exactly when a line of some block does |
| Hwinfo.HeaderIff | lib/libdpy.py:238-238 | a header is a line that starts with one or more digits, a colon and a blank |
| Hwinfo.BlockOfHeader | lib/libdpy.py:234-245 | there is one block for each header, in order: the lines behind it up to the next header |
| Hwinfo.FoldRaisesIff | lib/libdpy.py:277-280 | a block raises exactly when one of its lines does |
| Hwinfo.GatheredIff | lib/libdpy.py:239-293 | the report raises exactly when a block does; otherwise its monitors are exactly those of the blocks that set some key |
| Hwinfo.GatherConcat | lib/libdpy.py:239-293 | the monitors of earlier blocks come first |
| Hwinfo.FoldKeepsLast | lib/libdpy.py:247-289 | a block holds the last value of each scalar key and its resolutions in order |
| Edid.ScanSerial | lib/libdpy.py:361-379 | the first descriptor with a usable serial, and none exactly when no descriptor has one, without reading out of bounds on any length |
| Edid.SerialIsProper | lib/libdpy.py:361-379 | whatever the bytes: a serial found comes from a complete serial descriptor and is ASCII text of 1 to 13 characters without outer blanks that is not a lone NUL |
| Edid.DescriptorsFillTheBlock | lib/libdpy.py:363-363 | the descriptors looked at are all those of a base block, in order |
| Edid.NoSerialIff | lib/libdpy.py:364-379 | a complete serial descriptor gives none exactly when its text, stripped, is empty or a lone NUL |
| Edid.HeldSerialIsRead | lib/libdpy.py:364-379 | a serial encoded with line feed and blanks is read back exactly |
| Edid.SerialRoundTrip | lib/libdpy.py:361-379 | in a 128-byte block the scan recovers the serial of the first serial descriptor |
| LayoutFiles.ReadLayoutFiles | lib/desktop_layout.py:61-75 | terminates on cyclic graphs; succeeds exactly when every reachable file loads; the reader's log shows each reachable file read once, and on failure none twice; returns exactly those files in strict path order |
| LayoutFiles.CaptureIsUnique | lib/desktop_layout.py:75-75 | the reachable files determine the result, independent of visit order |

## Left out

- Subprocesses, X11 and real files: xprop, xrandr, wmctrl, hwinfo, inxi and fluxbox-remote appear as abstract state, snapshots and functions; a tool that exits with an error is modelled only for the caches.
- Concurrent senders: the code has no lock, so the delivery guarantee is stated for one sender.
- WindowList.ReadIds: underscores inside a hexadecimal number and blanks after it, which Python's int accepts, count as an invalid text; printed ids never hold either.
- RuleSummary.NumberAfter: decimal digits are the ASCII ones.
- Placement.Perform: window frames, minimum sizes and the answer of the client to a move are not modelled.
- RuleVerdicts.RuleOn: the set of matched windows is the same on every send, so a rule that moves windows out of its own pattern is covered only by the certification theorem.
- PlacementLaws.RuleSettlesIff: for rules of head, workspace and stuck commands and bare toggles; MoveTo and ResizeTo are arbitrary functions, and not every sequence of them is idempotent.
- Problem messages: problems are structured values, since only their presence and identity matter.
- DisplayCache.LayersAgreeOverEveryRun: the .md5 part is for runs in which the program does not die between writing a cache file and its .md5 file; decoding a cached file is not modelled.
- The current-layout and ui-scale files: removed by the outer clear_cache and not read by any modelled code.
- Screens.BuildScreens: starts from the fields matched in xrandr's output, the digit-only ones as numbers; Python's int on a name is an arbitrary function.
- Hwinfo.ParseMonitors: header lines are recognised in full; the key patterns of indented lines are an arbitrary function from a line to what it sets.
- Monitors.HybridMonitors: screen names are texts, not the numbers that names of digits become, and the inxi list used as fallback is not built.
- LayoutFiles.ReadLayoutFiles: the include directives come from an arbitrary function, and a path outside the layout root counts as a file that does not load; the code in monitor_controller.desktop.layout is not part of this model.
- Layout resolution, neighbour lookup, DPI and UI-scale formulas, command line handling, browser scripts: short formulas or glue.
