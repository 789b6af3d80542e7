# The dispatcher's rules, modelled and proved

The repository runs a small software line without people in its inner loop: executors build work items, a
merge gate checks each candidate under a lock shared by the whole machine, reviewers read a packed diff, and a
dispatcher feeds, resumes, gates and reworks. This project models the parts of that line whose mistakes would be
silent and expensive, and proves what each of them promises.

| file | models |
|---|---|
| `PyText.dfy` | Python's whitespace, stripping, substring, letter-case and numeral rules |
| `DiffPack.dfy`, `DiffUpgrade.dfy`, `PackDiff.dfy`, `PackTwins.dfy`, `PackCode.dfy`, `PackOverdraw.dfy`, `PackAnswer.dfy` | the budgeted diff packer of `gatereview2.py`: cut, pack code first, swap hunks for whole files; and when its output exceeds the budget |
| `BoxLock.dfy`, `LockTokens.dfy` | the mkdir locks of `mergegate.py` as a transition system over any number of crashing processes, and what their owner tokens say |
| `LockWatch.dfy`, `LockReports.dfy`, `LockMonitor.dfy` | the watchdog of `lockwatch.py`, alone, what it reports over every history, and sampling runs of the lock |
| `GateReport.dfy` | a gate's checks, headline, event kind, merge flag, exit code and printed file |
| `GateParse.dfy`, `GateRoundTrip.dfy` | `parse_gate_md` of `autogate.py`, and reading back what was printed |
| `GateDecide.dfy`, `GateVerdicts.dfy`, `FindingClasses.dfy`, `AutoRework.dfy`, `ReworkExact.dfy` | `decide`, the defect classes a review names, and the loop that collects gates and hands failures back |
| `StallWatch.dfy`, `TurnTick.dfy`, `Escalation.dfy` | stalled turns, provider errors, automatic continues, escalation |
| `WorkQueue.dfy`, `QueueSafety.dfy`, `QueueFeed.dfy` | the work queue: eligibility, dispatch, feed, gates, answers; and what they keep |
| `Placement.dfy`, `PlacementChoice.dfy`, `Identity.dfy`, `CodexLaunch.dfy` | accounts, durable conversation identities, and launches that combine them |

Code that the source writes as loops over lists, dictionaries or object fields is a method with loops, or a
class whose methods update its fields, and each is proved equal to a specification function; the properties are
lemmas about those functions, over every input and every run.

## Where the code differs from its own description

- A gate's box-lock token is `gate-<item>-<pid>-<time>` (mergegate.py:1600) and names no pid of its own
  (`LockTokens.GateTokenNames`), while `break_dead_box_lock` refuses every owner without one (mergegate.py:747-750),
  although its comment says the gate's owner string carries `pid=`. A gate that dies holding the box keeps it for
  good (`LockTokens.DeadGateKeepsBox`); `BoxLock.WedgedForever`, `BoxLock.WedgedFallsExactly` and
  `BoxLock.OtherwiseBreakable` say exactly which dead holders can be broken. An item whose name holds `pid=` and
  digits has those taken for its gate's pid.
- The comment at dispatcher.py:3000-3002 says that after a failed automatic continue the next tick tries again. The
  message was marked handled at dispatcher.py:2941, so it does not (`TurnTick.LostContinueIsNotRetried`).
- The comment at mergegate.py:767-769 says the last look before the removal closes the window in which another
  process may take the lock over. It narrows it: two breakers that have both made that look can both enter
  (`BoxLock.TwoBreakersBothEnter`). Two can be inside exactly if a breaker's removal takes the file of a live process
  (`BoxLock.RemovalDecidesExactly`); taking a dead replacement's file is harmless to exclusion.
- The headline and the event kind are computed from the same state but only the headline drops empty names, so a gate
  whose only unrun check has an empty name would be headed PASS and recorded INCOMPLETE
  (`GateReport.OutcomesAgree`). Every check of the shipped gate has a name, so this cannot happen there.
- Two stanzas of one product file pair with one slot twice, and the upgrade pass can then exceed the budget:
  `PackTwins.TwoStanzasOverdraw` gives a diff, a budget and whole files on which it does. A truncation marker longer
  than its 200 characters exceeds the budget too, which the diff alone decides (`PackDiff.PackFitsExactly`). For every
  diff and budget `PackOverdraw.OverdrawExactly` says, from the diff alone, whether some whole files drive the output
  over the budget, and `PackOverdraw.BooksRightExactly` whether any make the packer's count wrong. With short paths
  and no file that shrinks under two stanzas the output keeps to every budget (`PackDiff.ShortPathsFit`).
- The refusal to review a diff whose code was all dropped cannot be reached under the shipped budget
  (`PackDiff.RefusalExactly`).
- A gate result written within the same second as the last one acted on for its item is never collected, and the
  three-hour limit does not remove it either (`AutoRework.NeverCollected`). It takes a collection, a relaunch and a
  second finished gate within one second (`AutoRework.SameSecondIsLost`, `AutoRework.SameSecondHappens`), which no
  real gate manages.
- `finding_classes` tries `ts` before `tsx`, so findings about `x.ts` and `x.tsx` are one class
  (`FindingClasses.TsxReadsAsTs`).
- `REAL_VERDICTS` lists `needs_attention`, but a verdict is read as letters and hyphens only, so that one is read as
  `needs` and counts as no opinion (`GateVerdicts.UnderscoreCutsVerdict`, `GateVerdicts.FailureIsDecided`).
- "AUTH waits for a human" holds only until the next quota refusal of that profile, which replaces the hold
  (`Placement.HoldForGoodExactly`).

## Model

| member | source | states |
|---|---|---|
| DiffPack.SplitDiffSpellsDiff | gatereview2.py:77-86 | cutting loses and reorders nothing: the stanzas spell the diff after its blank preamble, and every later one opens a section |
| DiffPack.SplitDiffInvertsSpell | gatereview2.py:77-86 | round trip: what git printed is cut back into git's own sections, paths included |
| DiffPack.SplitDiffByLoop | gatereview2.py:77-86 | the source's loop computes that cut |
| DiffPack.PackingOrderSorts | gatereview2.py:153 | the packing order is the strictly increasing arrangement of all stanzas by rank, then position |
| DiffPack.LogsNeverDisplaceCode | gatereview2.py:153-168 | every product stanza is shown exactly as if the diff held product files alone |
| DiffPack.SameCodeSamePack | gatereview2.py:153-168 | two diffs with the same product stanzas show the same code, whatever logs they interleave |
| DiffPack.BytesConserved | gatereview2.py:77-86 | kept and dropped sizes add up to the diff, and every stanza is named once, a truncated one in both lists |
| DiffPack.FirstPassLength | gatereview2.py:154-168 | the packed text is `used` long plus the marker's overrun, at most one file is truncated, and it fits if and only if the marker fits its allowance |
| DiffPack.ProductShownExactly | gatereview2.py:154-168 | every product file is shown whole, up to the end of the budget, or not at all, as the room left at its own turn demands: left out exactly if it does not fit and at most 2000 characters are left then |
| DiffPack.OverrunKnown | gatereview2.py:161-166 | the marker's overrun is known from the diff beforehand: it is that of the first product stanza that does not fit, if more than 2000 characters are left for it |
| DiffPack.ShortPathsSuffice | gatereview2.py:162-163 | with short product paths the marker overruns under no budget |
| DiffUpgrade.BlockEncloses | gatereview2.py:89-101 | a whole file's block is its labelled header, its body less trailing newlines on lines of its own, and its footer, and nothing else |
| DiffUpgrade.SortCandsSorts | gatereview2.py:132 | candidates are tried in order of extra cost, then slot, none lost |
| DiffUpgrade.TakesPrefix | gatereview2.py:131-136 | the loop takes a prefix of the sorted candidates, keeps within the budget, and stops only where the next no longer fits |
| DiffUpgrade.CheapestFirst | gatereview2.py:114-115 | no selection of n candidates costs less than the n cheapest |
| DiffUpgrade.UpgradeBuysMost | gatereview2.py:114-137 | greedy optimality: no affordable selection has more files, negative costs included |
| DiffUpgrade.UpgradeAccounts | gatereview2.py:131-137 | for any candidates the packed stanzas stay the same set, taken slots show their block and others their hunk, and the text grows by what was spent less what was paid twice |
| PackDiff.CandFacts | gatereview2.py:118-130 | a candidate is the whole text of a packed, untruncated product file, priced against its hunk |
| PackDiff.PackAccounts | gatereview2.py:150-182 | on every input the output is `used` long plus the marker's overrun less what was paid twice, and `used` is within the budget |
| PackDiff.PackFitsExactly | gatereview2.py:150-182 | with one stanza a product file, or no whole files, the output is `used` plus the overrun known beforehand; it keeps within `used`, and without whole files within the budget, if and only if that overrun is not positive |
| PackDiff.PackFitsBudget | gatereview2.py:150-182 | for every diff in which no file with two stanzas would shrink, the output is within `used` plus the overrun known beforehand, and `used` within the budget |
| PackDiff.ShortPathsFit | gatereview2.py:140-182 | if product paths are short and no file with two stanzas would shrink, the output keeps to every budget |
| PackDiff.UpgradeLeavesTheRest | gatereview2.py:169-182 | upgrading adds and removes no stanza, and changes only untruncated product files, into their whole text |
| PackCode.FirstPassAsRead | gatereview2.py:153-179 | the room left, the files cut, the product rows kept and their slots can all be read off sizes, paths and ranks before packing |
| PackOverdraw.BodyOfLength | gatereview2.py:89-101 | every length from that of the shortest block on is that of some whole file's block |
| PackOverdraw.OverdrawExactly | gatereview2.py:104-182 | for every diff and budget some supply of whole files drives the output over the budget, if and only if the marker alone overruns, or some uncut shown product file is no dearer at its shortest than the room left and all the other files' savings, and those are credited again, for repeated paths, by more than the marker leaves spare |
| PackOverdraw.BooksRightExactly | gatereview2.py:104-182 | for every supply of whole files the output keeps within `used` plus the overrun known beforehand, if and only if no uncut product file of the diff is shown twice with a first stanza longer than its shortest block |
| PackTwins.ShrinkingTwinOverdraws | gatereview2.py:131-136 | where such a file is kept twice, its shortest whole text alone puts the output above that |
| PackTwins.TwoStanzasOverdraw | gatereview2.py:131-136 | a diff, a budget and whole files on which the packer's output exceeds the budget with nothing truncated |
| PackDiff.WholeFilesAreMost | gatereview2.py:104-137 | no set of whole files that the rest of the budget can pay for is larger than the one shown |
| PackDiff.SmallDiffShownVerbatim | gatereview2.py:150-182 | a diff that fits is shown verbatim less a blank preamble, and nothing is dropped |
| PackDiff.RefusalExactly | gatereview2.py:258-265 | the refusal happens if and only if the budget is 2000 or less and every product stanza is longer than it |
| PackDiff.UpgradeToWhole | gatereview2.py:104-137 | the two loops of the upgrade compute the specified pack |
| PackDiff.PackInOrder | gatereview2.py:154-168 | the packing loop computes the specified first pass |
| PackDiff.SlotsByPath | gatereview2.py:176-178 | the first packed slot of each path |
| PackDiff.PairRows | gatereview2.py:179 | each kept row with the slot of its path |
| PackDiff.PackDiffByLoops | gatereview2.py:140-188 | the whole packer computes the specified report |
| PackAnswer.AnswerSpells | gatereview2.py:150-188 | what the packer emits is one piece for every stanza, in diff order: the stanza as the room left at its turn allows, or its whole file exactly if the answer lists it as upgraded and this is its first stanza shown; product stanzas take their turns first and show as if alone |
| PackAnswer.AnswerRows | gatereview2.py:150-188 | what it reports as kept and left out is the characters shown and not shown of each stanza at its turn; they add up to the diff and name every stanza once; a blank diff is shown as far as the budget goes |
| PackAnswer.AnswerUpgrades | gatereview2.py:104-182 | the whole files it reports are on offer and affordable, in order of cost and then of the diff, and any offer left out comes later and would not have fitted |
| BoxLock.StepKeepsInv | mergegate.py:727-785 | every step of the protocol, crashes and breaks included, keeps the lock invariant, unless it removes a live process's file |
| BoxLock.AtMostOneHolder | mergegate.py:727-846 | mutual exclusion over whole runs of the box lock and the portal lock in which no removal takes a live process's file: at most one live process is between its mkdir and its rmdir, and a live holder's owner file names it |
| BoxLock.RemovalDecidesExactly | mergegate.py:762-775 | after any such run, a breaker's removal lets two live processes inside, by further such steps, if and only if the file it removes names a live process |
| BoxLock.LiveOwnerFileIsSafe | mergegate.py:769-775 | no step of another process that removes only the token it compared takes the owner file of a live holder |
| BoxLock.BreaksOnlyTheDead | mergegate.py:742-766 | in every run a process is about to break the lock only against a token that names a dead process and that it found in the owner file when it last compared |
| BoxLock.ReleaseGoesThrough | mergegate.py:781-785 | a live holder's release finds its token, its file and an empty directory, and frees the lock |
| BoxLock.WedgedForever | mergegate.py:742-751 | a dead holder with no owner file, or whose token names no pid, keeps the lock through every run in which removals take the token they compared |
| BoxLock.WedgedFallsExactly | mergegate.py:743-778 | without that, a run in which no live process's file is removed can free such a lock if and only if it shows an owner file and some live breaker has already made its last comparison |
| BoxLock.OtherwiseBreakable | mergegate.py:743-778 | any other dead holder's lock is freed by four steps of a waiting process |
| BoxLock.PortalBreakable | mergegate.py:811-840 | of the portal lock's dead holders exactly those without an owner file keep it; any other is freed in three steps |
| BoxLock.TwoBreakersBothEnter | mergegate.py:762-775 | a run from the start in which two breakers whose last comparisons both held end up inside together |
| LockWatch.Watchdog.FireOnce | lockwatch.py:183-189 | an episode is reported when its key is new, and only then |
| LockWatch.Watchdog.PollOnce | lockwatch.py:191-285 | one poll computes the specified next state and events |
| LockWatch.NeverReportedTwice | lockwatch.py:183-206 | without an observed absence no episode is reported twice, whichever detector sees it |
| LockWatch.EveryChangeReportedOnce | lockwatch.py:233-252 | an in-place change to a new token is reported as such exactly once over the whole stretch |
| LockWatch.HalfReleasedExactly | lockwatch.py:217-229 | HALF_RELEASED is reported if and only if the unbroken ownerless stretch seen is over 60 seconds and unmarked |
| LockReports.PollSaysExactly | lockwatch.py:191-285 | from any state a poll emits an event if and only if what it sees calls for it and the episode is not marked, for all six kinds of episode; and which marks it leaves |
| LockReports.EmittedExactly | lockwatch.py:191-285 | for every history a poll emits an event if and only if it sees the episode and no poll since the last absence saw it or a hand-over that settles it |
| LockReports.AllThatIsEmitted | lockwatch.py:183-285 | everything emitted over a history was emitted so by one of its polls |
| LockReports.ColdStartIsReported | lockwatch.py:266-273 | a first look at an owner file written 204 seconds after its directory is reported as an in-place move |
| LockTokens.GateTokenNames | mergegate.py:1600 | a gate's box token names a pid exactly if its item's name does, and then that pid |
| LockTokens.PortalTokenNames | mergegate.py:920 | a portal token always names a pid, and its gate's own exactly if the item's name holds no other |
| LockTokens.DeadGateKeepsBox | mergegate.py:747-750 | while no item's name holds a pid, a gate that dies holding the box keeps it through every later run, with no assumption on timing |
| LockMonitor.HonestLockNeverAccused | lockwatch.py:191-279 | no run of the lock protocol under honest clocks and no choice of poll times makes the watchdog report an in-place move |
| GateReport.GateRun.Record | mergegate.py:1859-1897 | a check is added and the three summaries still agree with the rows |
| GateReport.GateRun.Advise | mergegate.py:1899-1903 | an advisory row is added and nothing else changes |
| GateReport.GateRun.NoteHandMerge | mergegate.py:1971-1973 | the hand-merge note is added and nothing else changes |
| GateReport.GateRun.Finish | mergegate.py:2208-2292 | headline, event kind, merge flag and exit code are those of the recorded rows |
| GateReport.ReasonEmptyExactly | mergegate.py:1393-1396 | the reason is empty exactly when every unrun or undeclared check is nameless |
| GateReport.OutcomesAgree | mergegate.py:1379-1400 | kind, merge flag and exit code always agree; the headline agrees with them if and only if the checks without a result are not all nameless |
| GateReport.HeadlineShowsEveryGap | mergegate.py:1379-1400 | the headline shows every unrun and every undeclared check by name, and says of each kind which it is |
| GateReport.MergeableExactly | mergegate.py:2254 | mergeable if and only if every check passed; exit code 1 if and only if some check failed |
| GateReport.AdvisoryRowsDecideNothing | mergegate.py:1899-1903 | gates with the same recorded checks have the same outcome, whatever advisory rows they interleave |
| GateParse.SplitAtLineFeed | autogate.py:33 | splitting into lines distributes over a line feed |
| GateParse.ParseByLoop | autogate.py:25-61 | the parser's loop computes the specified parse |
| GateParse.ReadTailOf | autogate.py:48-51 | after the colon the status word and the stripped detail are read, whatever the detail holds |
| GateParse.RowReadsBack | mergegate.py:1416-1430 | a recorded row reads back as its name, status and stripped detail |
| GateParse.HandMergeQuietExactly | mergegate.py:1971-1973 | the hand-merge note reads as a row exactly when its text imitates one |
| GateParse.HandMergeIsQuiet | mergegate.py:1971-1973 | a note of one line without double stars never reads as a row |
| GateRoundTrip.VerdictReadUpToDash | autogate.py:34-37 | of any verdict the header line gives back the part before its first dash |
| GateRoundTrip.VerdictReadsBackExactly | autogate.py:34-37 | the gate's verdict reads back up to its first dash, so whole if and only if it has none |
| GateRoundTrip.FileSays | autogate.py:25-61 | whatever details and advisory texts hold, over any number of lines, the file says every recorded row in turn and besides only what other lines say for themselves |
| GateRoundTrip.QuietExactly | autogate.py:42-59 | a reader takes nothing from lines if and only if every one of them is quiet |
| GateRoundTrip.ReadsBack | autogate.py:25-61 | with quiet other lines the file reads back as the recorded rows and nothing else, the undeclared names, the sha, and the verdict exactly when it holds no dash |
| GateRoundTrip.NamesRead | autogate.py:48-54 | a name reads back if and only if it was recorded |
| GateRoundTrip.LastRecordRead | autogate.py:48-54 | a record not repeated later keeps its status and the first line of its detail |
| GateRoundTrip.AdvisoryCanPoseAsRow | mergegate.py:1428-1429 | an advisory text that imitates a row is printed as that row |
| GateRoundTrip.AdviceQuietExactly | mergegate.py:1428-1429 | an advisory row is quiet exactly if its first line does not pose as a row and no later line reads as one |
| GateRoundTrip.PlainAdviceIsQuiet | mergegate.py:1428-1429 | a one-line advisory text that does not open in bold never reads as a row |
| GateVerdicts.OpinionExactly | autogate.py:64-75 | the word read is the run of letters and hyphens behind the first `verdict=` that has one, in a detail that says a review took place and ended with 0; it is an opinion if and only if it is needs-attention, reject or request-changes |
| GateVerdicts.PrintedGives | autogate.py:64-75 | the verdict the gate prints after a clean exit is the one read, whatever follows, unless the detail says that no review took place |
| GateVerdicts.UncleanGivesNothing | autogate.py:69-70 | a review that exits with another code gives no verdict, whatever it says |
| GateVerdicts.UnderscoreCutsVerdict | autogate.py:21-71 | `needs_attention` is read as `needs` |
| GateDecide.HeadWordSurvives | autogate.py:34-37 | the words the headline opens with are read back whatever the rest of the file holds |
| GateDecide.ReworkNeedsFailure | autogate.py:107-169 | rework is answered only if some recorded check failed |
| GateDecide.CrashIsNotHandedBack | mergegate.py:1796-1808 | the report of a crashed gate always goes to a person, whatever it had recorded |
| GateDecide.UnprovenNamesBothKinds | autogate.py:121-140 | an incomplete gate is escalated with exactly the unrun checks and, apart, the undeclared ones |
| GateVerdicts.FailureIsDecided | autogate.py:107-169 | what becomes of a gate with a failed check, however reported: rework with Codex's verdict, or which of the six reasons a person is given, in their order, with the checks that failed last if Codex approved |
| GateVerdicts.PassIsApprovable | autogate.py:117-119 | a gate in which every check passed is shown to a person to approve |
| GateDecide.AdvisoryOnlyHoldsBack | autogate.py:55-56 | advisory rows change at most the disagreement mark, so they can hold a rework back and never cause one |
| FindingClasses.ClassesByLoop | autogate.py:78-91 | the loop over findings computes the specified classes |
| FindingClasses.LegibleExactly | autogate.py:89 | in a path the pattern finds a file exactly if an extension stands behind one of its inner dots |
| FindingClasses.ReadWholeExactly | autogate.py:89 | a path is read whole if and only if it is a stem, a dot and one of py, ts, yml, yaml, sql and sh |
| FindingClasses.FirstFileIs | autogate.py:89 | behind text that names no file, what is read of a path is found where it stands |
| FindingClasses.ClassesOfReview | autogate.py:78-91 | a review made of findings is reduced to exactly its pairs of severity and file as read |
| FindingClasses.WordingDoesNotMatter | autogate.py:78-91 | reviews that agree on severities and files name the same classes in whatever words, and two reviews overlap exactly when they agree on some file's severity |
| FindingClasses.TsxReadsAsTs | autogate.py:89 | a finding about a .tsx file is put down to the .ts file of the same name |
| AutoRework.Collector.SendRework | dispatcher.py:1383-1438 | a rework is counted and the row moved only when relayed or delivered |
| AutoRework.Collector.CollectGates | dispatcher.py:1343-1381 | one pass over the launched gates computes the specified book |
| AutoRework.OneLook | autogate.py:160-169 | one look either sends a rework within the limit with new classes only, or leaves the item's history alone |
| AutoRework.BoundedRework | dispatcher.py:1343-1438 | from any history and over every run an item is handed back at most as often as its history leaves of the two, failures to deliver uncounted, and no finding class twice, nor one of the history |
| AutoRework.NoFileActedOnTwiceRunning | dispatcher.py:1358-1364 | the same gate file is never acted on twice running |
| AutoRework.CollectedExactly | dispatcher.py:1348-1364 | over a run of looks a launched gate's result is acted on, once, if and only if some look is at it and it is of another second than the last one acted on |
| AutoRework.NeverCollected | dispatcher.py:1348-1364 | a result of that same second is never collected, through any run, and its gate stays launched |
| AutoRework.SameSecondIsLost | dispatcher.py:1359-1364 | such a state is reached by a collection, a relaunch and a second result within one second |
| AutoRework.SameSecondHappens | dispatcher.py:1359-1364 | a book and a run, with its files and times, in which a result is lost so |
| AutoRework.HandedBackOnlyFailures | dispatcher.py:1350-1381 | what is handed back is a gate that ran to its end and in which some check failed, never a crash report |
| AutoRework.RepeatGoesToPerson | autogate.py:160-169 | a review that repeats a file and severity of a delivered rework, in whatever words, is not handed back |
| AutoRework.ReworkStatusMeansSent | dispatcher.py:1401-1434 | a row becomes rework exactly when the rework was delivered or relayed |
| ReworkExact.ResultActedOn | dispatcher.py:1367-1438 | a new result is acted on at once: the row becomes rework, with one failure and the review's classes counted, if and only if it is to be reworked and its executor can be told; reported if it is not to be reworked; nothing else changes |
| ReworkExact.HandedBackExactly | dispatcher.py:1343-1438 | from recorded checks to the row: a failed gate comes back to its executor, and is counted, exactly if its report ends undisputed, Codex asks for changes, the history allows it and the executor can be told |
| ReworkExact.PassIsEachAlone | dispatcher.py:1343-1381 | a pass over the launched gates does to each item what a look at it alone would do |
| ReworkExact.GivenUpExactly | dispatcher.py:1353-1357 | over any run of looks a gate without a result stays launched if and only if no look at it is more than three hours after its launch |
| StallWatch.SameFingerprint | dispatcher.py:744-775 | two fingerprints are equal exactly for one message with the same number of parts and size |
| StallWatch.StallMaps.CheckStall | dispatcher.py:804-880 | one call computes the specified outcome and leaves all other sessions alone |
| StallWatch.DeclaredOnEvidence | dispatcher.py:744-846 | a stall is declared only after at least two consecutive looks over the dwell time at one assistant message, not completed, without text or a tool in flight and grown in neither parts nor size, with no compaction in progress |
| StallWatch.DeclaredOncePerTurn | dispatcher.py:826-848 | between two declarations the newest message was another one, or grew, or looked alive |
| StallWatch.ResumesApart | dispatcher.py:862-873 | two resumes of a session are never closer than the re-resume window |
| StallWatch.DeclaredExactly | dispatcher.py:744-848 | while one cut-off turn stands still a stall is declared at exactly the first look that has enough evidence |
| StallWatch.CutOffExactly | dispatcher.py:744-775 | a message looks cut off exactly if it is an assistant's, unfinished, without error, all its texts blank and none of its tools pending or running |
| StallWatch.BeganExactly | dispatcher.py:804-829 | a turn begins to be watched exactly if it looks cut off and is not the one of the call before, or was excused there |
| StallWatch.ResumedExactly | dispatcher.py:846-880 | a declared stall is resumed unless a resume was tried within the window before it, and then handed to a person |
| StallWatch.CompactionExcuses | dispatcher.py:832-845 | where a stall would be declared during a compaction none is, and the compaction is announced unless it was the last one announced |
| TurnTick.TalkMaps.FirstSighting | dispatcher.py:710-714 | a new error message is noted and counted once |
| TurnTick.TalkMaps.CheckRetryableError | dispatcher.py:689-740 | the error path computes the specified outcome |
| TurnTick.TalkMaps.StoppedMidStep | dispatcher.py:2977-3020 | the progress-stop path computes the specified outcome |
| TurnTick.TalkMaps.Handle | dispatcher.py:2906-3022 | one visit computes the specified state and leaves all other sessions alone |
| TurnTick.AttemptsApart | dispatcher.py:724-733 | two resume attempts on a session are at least a window apart |
| TurnTick.HandledOnce | dispatcher.py:2908-2941 | while no other message is handled, a handled message is left alone |
| TurnTick.LostContinueIsNotRetried | dispatcher.py:2992-3019 | over any run a continue that failed is posted again for its message only after a tick between handled another message, and it is not counted |
| TurnTick.WaitsExactlyWhileYoung | dispatcher.py:709-723 | an error waits exactly until some look finds it as old as the grace, with or without a timestamp, and is then handled |
| TurnTick.CountedExactly | dispatcher.py:710-714 | a look counts exactly if it finds a retryable error that is not handled and is not the one counted last |
| TurnTick.CountedOnce | dispatcher.py:710-714 | no error message is counted twice unless another one was counted between |
| TurnTick.AutoCountsDelivered | dispatcher.py:2992-3022 | the counter is the number of continues delivered since the last reset, within the limit |
| TurnTick.StuckExactly | dispatcher.py:2992-3020 | STUCK exactly at an unhandled stop with an item to continue, after exactly the allowed number of delivered continues |
| TurnTick.TickDoesExactly | dispatcher.py:2906-3022 | what a tick does, from the ticks before it alone: which of fourteen things, for every kind of message, with grace, resume window, handled mark and continue counter read off the history |
| Escalation.Pending.AgeAll | dispatcher.py:3427-3501 | one pass computes the specified state of every row |
| Escalation.AskedAtMostThrice | dispatcher.py:3488-3501 | a person is asked about a row at most three times |
| Escalation.AskedApart | dispatcher.py:3488-3501 | two requests are at least the repeat interval apart |
| Escalation.NotifiedOnce | dispatcher.py:3451-3487 | the owner is notified once, a session declared dead once, and held or off-roster rows are silent |
| Escalation.SaidExactly | dispatcher.py:3427-3501 | who is told what at each pass of any run, exactly, from what was said before and the ages |
| WorkQueue.Dispatcher.WorktreeClaim | dispatcher.py:1889-1932 | the loop finds a wrong claim exactly when there is one |
| WorkQueue.Dispatcher.BusyWorktrees | dispatcher.py:1775-1784 | the worktrees of dispatched rows and Codex runs |
| WorkQueue.Dispatcher.LaneOccupied | dispatcher.py:1826-1857 | the lane is held exactly when another row under review or gate names the lane or worktree |
| WorkQueue.Dispatcher.EligibleItem | dispatcher.py:1956-2002 | the first row this executor may have |
| WorkQueue.Dispatcher.CurrentItem | dispatcher.py:1872-1885 | the first row this executor holds |
| WorkQueue.Dispatcher.Dispatch | dispatcher.py:2034-2053 | a row is dispatched only when its prompt could be read and was delivered |
| WorkQueue.Dispatcher.Launch | dispatcher.py:913-952 | a launched gate marks its row and is remembered |
| WorkQueue.Dispatcher.SettleCurrent | dispatcher.py:2055-2207 | what a report or a question does to the executor's row, and whether it is fed |
| WorkQueue.Dispatcher.FeedOne | dispatcher.py:2055-2214 | the whole of feed computes the specified queue |
| WorkQueue.Dispatcher.ApplyAnswers | dispatcher.py:1204-1341 | a batch of answers computes the specified queue |
| QueueSafety.StatusKeepsOwnerExactly | dispatcher.py:1887-1932 | a status change keeps one owner to a worktree if and only if it is to a finished status, or the row was unfinished, or nobody else claims |
| QueueSafety.EligibleTreeIsFree | dispatcher.py:1956-2002 | an eligible row has its worktree to itself: no unfinished row, gate or Codex run in it |
| QueueSafety.FeedSound | dispatcher.py:2055-2214 | reports, questions and dispatch keep the queue sound |
| QueueSafety.ManualGateSound | dispatcher.py:1165-1202 | launching a gate by hand keeps the queue sound |
| QueueSafety.CollectedSound | dispatcher.py:1343-1381 | collecting a gate keeps the queue sound |
| QueueSafety.AnswerSound | dispatcher.py:1204-1341 | answering a question keeps the queue sound |
| QueueSafety.OneOwnerAlways | dispatcher.py:1887-1932 | in every run every worktree has at most one unfinished row |
| QueueSafety.ParkIsOnlyClaimed | dispatcher.py:1799-1932 | no row is eligible for a worktree where another is parked, for any executor, and only the worktree claim sees to that |
| QueueSafety.ParkMustClaim | dispatcher.py:1799-1887 | were such a row given to another executor, answering the question would put both in one worktree, exactly if the answer arrives and the parked row's executor holds nothing else |
| QueueSafety.UnparkedExactlyIfTold | dispatcher.py:1204-1341 | over a batch a row leaves its park if and only if its executor was told, and all other rows are untouched |
| QueueSafety.AnswersNeverDoubleBook | dispatcher.py:1306-1321 | after any batch an executor holds at most one row, or at most as many as before |
| QueueFeed.EligibleExactly | dispatcher.py:1956-2002 | a row may be given out exactly if it is queued, free or for this executor, its dependencies are done, and no other row, gate or Codex run is in the way of its worktree and lane |
| QueueFeed.FeedOfIdle | dispatcher.py:2055-2214 | an executor without a row is given the first it may have, unless it reports while rows of its own are under gate or parked |
| QueueFeed.FeedOfBusy | dispatcher.py:2055-2214 | a report moves its row to the gate or to a person, a question parks it, and if the executor is free for more it is given the first row it may have by then |
| QueueFeed.AnswerExactly | dispatcher.py:1204-1341 | an answer changes the row it names if that is parked with an executor who hears it: back to the work it was parked from, or queued for it if it has another row |
| QueueFeed.ManualGateExactly | dispatcher.py:1165-1202 | a gate asked for by hand is launched exactly for a row that is worked on, has no uncollected gate and names worktree and lane |
| QueueFeed.DispatchedOnlyRightly | dispatcher.py:1956-2053 | in every run a row is set to work only by a feed of an executor it is for, when nothing is in its way and no earlier row would do, or by an answer to the executor who asked and has nothing else |
| Placement.RotationIsFair | museadapter.py:120-131 | one round of rotation serves every profile exactly once |
| Placement.MarkMeans | museadapter.py:277-302 | what each kind of refusal holds, for how long, and whether conversations may move |
| Placement.HoldForGoodExactly | museadapter.py:277-288 | after any refusals a hold for good stands if and only if the last one that counts was not of allowance |
| Placement.HoldForGoodSurvivesExactly | museadapter.py:277-288 | it stands all along if and only if no refusal of the profile is of allowance |
| Placement.CountedExactlyOnce | museadapter.py:305-322 | every conversation counts once, on the profile it is placed on |
| Placement.LaunchAddsOne | dispatcher.py:2383-2385 | launching a new conversation raises exactly its profile's load by one |
| Placement.PlaceNew | museadapter.py:325-343 | the least loaded healthy Go profile, and none exactly when all are held |
| Placement.ChosenAtMostFairShare | museadapter.py:325-343 | the chosen profile ends at or below the fair share rounded up |
| Placement.LoadStaysFair | museadapter.py:325-343 | after any number of placements every key is at its old load or at or below the fair share rounded up |
| Placement.StaysLevel | museadapter.py:336-343 | loads that differ by at most one stay so |
| Placement.LaunchesStayFair | museadapter.py:305-343 | over any run of launches of new conversations that write rows and map, the load counted from them stays at its old value or at or below the fair share rounded up, and each launch adds one |
| Placement.LaunchesStayLevel | museadapter.py:305-343 | counted loads that differ by at most one stay so over such a run |
| Placement.HeldOnlyIfNamed | museadapter.py:379-429 | a held profile is used only when the item names it |
| Placement.WarmMovesExactly | museadapter.py:389-398 | a warm conversation stays, waits or moves exactly as its profile's hold says |
| Placement.ZenIsLastResort | museadapter.py:409-429 | the zen tier is used only when every Go profile is held, and nothing is usable exactly when no zen profile is either |
| PlacementChoice.SettledChoice | museadapter.py:379-407 | a profile the item names is used, held or not; a conversation stays, or waits out a short hold; and a slot with no route or a usable one takes that |
| PlacementChoice.PlacedByLoad | museadapter.py:325-429 | a conversation that needs a place goes to the unheld Go profile with the fewest conversations, in turn among several, then to the zen profiles in turn, and nowhere exactly if none is open |
| Placement.Accounts.MarkUnhealthy | museadapter.py:277-288 | records exactly the specified hold |
| Placement.Accounts.UnhealthyNow | museadapter.py:346-355 | the loop collects exactly the profiles held now |
| Placement.Accounts.RowLoad | museadapter.py:312-318 | the loop counts the conversations named by queue rows |
| Placement.Accounts.AccountLoad | museadapter.py:305-322 | the two loops compute the specified loads |
| Placement.Accounts.Select | museadapter.py:358-429 | the choice made on those loads is the specified one |
| Identity.Store.PrepareRecord | musesession.py:67-102 | computes the specified record or refusal |
| Identity.Store.BindSession | musesession.py:105-118 | computes the specified binding or refusal |
| Identity.PrepareMeans | musesession.py:67-102 | a prepared record is stored, on the asked route, of the asking owner, worktree and session; a refusal or exact resume stores nothing |
| Identity.PrepareAgain | musesession.py:77-102 | asking again gives the same record and writes nothing |
| Identity.BindingNeverChanges | musesession.py:105-118 | a session binding never changes over any run |
| Identity.ConversationKept | musesession.py:90-97 | a conversation keeps its record over every run that does not explicitly re-place it |
| Identity.OneHeaderOneAccount | musesession.py:93-118 | identities with one header name one route, conversation, owner and worktree |
| Identity.PrepareExactly | musesession.py:67-102 | when a record is given, which one and under which header, what is stored, and which refusal comes first |
| Identity.BoundToFirst | musesession.py:105-118 | over every run a session holds the first record bound to it, and a bind succeeds exactly if it is the first or repeats it |
| CodexLaunch.WarmLaunch | dispatcher.py:2310-2390 | a warm launch that may not move waits, fails, or goes out on its own profile under its own header |
| CodexLaunch.WarmConversationStays | dispatcher.py:2310-2390 | over any run without a movable hold or an explicit profile the conversation's identity is unchanged |
| CodexLaunch.WarmLaunchesAgree | dispatcher.py:2310-2390 | so every launch of it that succeeds uses that account and header |
| CodexLaunch.LaunchMakesWarm | dispatcher.py:2352-2385 | a successful launch leaves its profile and header for the next launch to find |
| CodexLaunch.LaunchExactly | dispatcher.py:2310-2390 | how a launch on a chosen profile ends, under which header, and what it leaves on record, by what was on record before |
| CodexLaunch.NothingLaunched | dispatcher.py:2310-2350 | without a profile that can be resolved nothing is launched or stored, and how that is told |
| CodexLaunch.ColdGoesToLeastLoaded | dispatcher.py:2310-2390 | a new conversation on a slot that distributes goes to the open Go profile with the fewest conversations, under a new header that is put on record |

## Left out

- BoxLock.AtMostOneHolder: assumes that no breaker's removal takes a live process's file, which `RemovalDecidesExactly` shows to be the exact condition, and that a token's pid is its process's own, which `LockTokens` shows to hold while no item's name holds one.
- BoxLock.OtherwiseBreakable: the age limit, the pytest probe and the recheck delay only forbid breaks, so the model lets a breaker pass them at any time.
- LockMonitor.HonestLockNeverAccused: one snapshot is one atomic look, lock generations are at least 1 ms apart, the owner is written within 5 s of the mkdir, and pids are not reused; the lock's own theorems need none of the clock assumptions.
- The portal lock (mergegate.py:811-846) is the same protocol without the recheck, so its owner file can be replaced anywhere from its holder read to its removal; its wait limit is not modelled.
- LONG_HOLD's census text, the watchdog's persistence, and all event wording.
- PackDiff.PackFitsBudget: for given whole files the condition on files with two stanzas is sufficient; over all supplies of whole files `PackOverdraw.BooksRightExactly` has it exactly for the packer's count and `PackOverdraw.OverdrawExactly` for the budget.
- PackDiff.PackDiffByLoops: the note naming dropped files is not modelled, and `whole_file` is a function of the path.
- GateRoundTrip.ReadsBack: names are trimmed, on one line and without `**`, as the gate spells them; other lines are quiet, which `QuietExactly` shows to be needed, and `FileSays` covers files where they are not.
- GateVerdicts.FailureIsDecided: upper and lower case are those of the letters a to z, and history is what `send_rework` wrote.
- FindingClasses.ClassesOfReview: `\w` and letter case are those of ASCII; a well-written finding stands on one line, names its file before any other, and has at most 200 characters behind its severity.
- The severity counting, marker and failure-text patterns, migration collisions, prompt and note texts.
- AutoRework.BoundedRework: looks at one gate take their files, probes and posts from the environment; dry runs are not modelled.
- StallWatch.ResumesApart: needs a clock that never runs back and is past zero; the same holds for TurnTick.AttemptsApart.
- StallWatch.StallMaps.CheckStall: the serialised message is represented by its length, and event wording is dropped.
- TurnTick.TalkMaps.Handle: plan reviews, nudges, feeding and pending rows of a tick are other code; only the handled mark, error memory and continue counter are kept.
- QueueSafety.OneOwnerAlways: assumes distinct row ids and that edits made outside (by people, by the gate's own queue write, by merging) leave the queue sound.
- `codex_tick` guards worktrees by `busy_worktrees` alone and is not part of the queue's invariant.
- WorkQueue.Dispatcher.EligibleItem: `blocked_on` notes and skip events are dropped, dependencies are a set of ready rows, and statuses are read without letter case.
- That an executor holds one row at a time is not claimed: feed dispatches after a deferred report on purpose.
- Placement.Accounts.AccountLoad: profile and affinity values are text, and a queue row's conversation is its id.
- Identity.Store.PrepareRecord: the shape, version and uuid checks of a stored record are one case, Malformed; file locking, hashing of names and durable writes are not modelled.
- CodexLaunch.WarmConversationStays: worktree creation, route read-back and process reaping are outside; a launch's route, start and new uuid are arbitrary.
- HTTP, git, process and file system calls everywhere: their results are arbitrary inputs.
