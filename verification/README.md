# Solana Playground client: a verified model

This project models, in Dafny 4.11, the parts of the Playground client
(`client-v2/src`) whose behaviour depends on orders of events, on collisions
or on many branches, and proves what holds of them for every input and every
run. `dafny verify dfyconfig.toml` checks all of it.

The parts, hardest first:

- **The main view** (`MainView.dfy`, `MainPrimary.dfy`). `setMainPrimary` calls
  wait for a view to answer or mount, newer calls supersede older ones, and a
  view that mounts later gets the last content again. `MainView` is the
  protocol told without counters and flags, with its theorems over all runs;
  the class `Primary` has the source's counters and flags and is proved to
  follow the protocol step by step.
- **The modal stack** (`ModalStack.dfy`). Open dialogs, the callers that wait
  for them, the hosts that show them and the timers that close those no host
  shows.
- **The layout of a repository without a program** (`NoProgramLayout.dfy`,
  `NoProgramLayoutTheorems.dfy`, `NoProgramLayoutOrder.dfy`,
  `NoProgramLayoutPaths.dfy`, with `Placement.dfy`, `Sequences.dfy` and
  `Text.dfy`). Every kept file gets its own path under `client/` or `tests/`.
- **The command engine** (`CommandSpec.dfy`, `CommandParser.dfy`,
  `CommandTheorems.dfy`, `CommandOutcomes.dfy`, `CommandRuns.dfy`). What a
  declaration must satisfy, how a line is read against it, how it ends when no
  handler gets it, and how runs start, lock, stop and end.
- **Stored settings** (`StoredEndpoint.dfy`, `StoredEndpointTheorems.dfy`).
  Endpoints stored under option keys, and the filter that keeps broken stored
  values from loading.
- **Routes** (`Routes.dfy`), **cluster reads** (`ClusterRead.dfy`),
  **downloads** (`DownloadPool.dfy`), **transactions** (`Transactions.dfy`,
  with `LittleEndian.dfy`), **serial execution** (`SerialQueue.dfy`) and
  **random numbers** (`RandomBigInt.dfy`).

Asynchronous code is a machine: a state, the events that may come next, a
`Step` function and `IsRun`, which says that a sequence of states follows a
sequence of events from the start. Each step runs up to the next `await` or to
the end of a handler, as the event loop runs it. A class beside each machine
has the source's own variables, and its methods are proved to take exactly the
machine's steps.

## What the code does that its comments do not say

- `placementRank` is documented to make the layout independent of the order in
  which files arrive (`client-v2/src/utils/framework.ts:161-165`). It does not.
  For every list of files, the order is irrelevant exactly when the files of
  each rank have different first choices, the paths each would pick next to the
  first choices of lower ranks: `NoProgramLayoutOrder.OrderMattersExactly`.
  `client/a.test.ts` and `tests/a.test.ts` have one first choice
  (`NoProgramLayoutOrder.TestsOfTwoFoldersTie`), and so do `client/x.ts` and
  `client/client/x.ts` beside a top-level `x.ts`, although no two of these want
  one path at one rank (`NoProgramLayoutOrder.FallbackContestsOwnPath`).
- A path that stops early matches a route. The checks beside the parser rely on
  it for whole segments (`client-v2/src/utils/router.ts:289-292`), but the
  comparison of the prefixes (`client-v2/src/utils/router.ts:201-204`) lets a
  path stop inside a literal too: `/tut` matches `/tutorials/{name}/{page}`.
  `Routes.StoppedPathMatches` says exactly which templates such a path matches,
  and with which values; `Routes.MatchesExactly` says it of every path.
- One more slash at the end of a path changes nothing except where the
  template ends in `/` or its last value is empty:
  `Routes.TrailingSlashChangesNothing`.
- A view that mounts while calls are still to resume gets nothing if an error
  answered the newest of them, the content delivered before included
  (`client-v2/src/utils/view.ts:405-408`). `MainView.MountedViewShows` says
  exactly what a mounting view comes to show; `MainView.RejectedCallHidesReplay`
  is a run in which it shows nothing.
- `createOptions` checks shorts among the declared options only, and help is
  added afterwards (`client-v2/src/commands/create.ts:46-49`), so an accepted
  option may clash with it: `CommandSpec.AcceptedOptionsAreDistinct` says
  exactly when, `CommandSpec.HostClashesWithHelp` gives one.
- A command with options and no arguments drops positionals silently
  (`CommandTheorems.LineReadsBack`), and one with subcommands as well refuses
  its own options (`CommandTheorems.ParentRefusesTokens`).
- A value that names an option is read as that option too
  (`client-v2/src/utils/command.ts:609-613`), so `--name -v` sets `verbose`:
  `CommandTheorems.ValueSetsNamedFlag`. `CommandTheorems.OptionReadsBack` says
  exactly when an option reads back as it was given.
- An empty token that is the first value an argument does not allow lets all of
  its values through (`client-v2/src/utils/command.ts:582-592`):
  `CommandOutcomes.EmptyValueLetsThrough`.
- `executeInOrder` never runs anything again once a callback has rejected
  (`client-v2/src/utils/common.ts:194-205`):
  `SerialQueue.NothingRunsAfterARejection`, `SerialQueue.AllRunExactlyWhen`.
- `generateRandomBigInt` cannot give every value of every range
  (`client-v2/src/utils/common.ts:831-845`).
  `RandomBigInt.EveryValueIsGivenExactly` says for which ranges it can,
  `RandomBigInt.GivesExactly` which values it gives, and
  `RandomBigInt.NotEachValueIsGiven` names one that it does not.

## Model

| member | source | states |
|---|---|---|
| `MainView.ShowsNewest` | client-v2/src/utils/view.ts:230-286 | in every run, error answers and several views included: once no call is pending, a mounted view shows the newest call's content if and only if no error answered that call and the view did not join another one after it |
| `MainView.OneViewShowsNewest` | client-v2/src/utils/view.ts:369-430 | with no error answer and at most one view at a time, a mounted view shows the newest call's content whenever no call is pending |
| `MainView.MountedViewShows` | client-v2/src/utils/view.ts:369-418 | in every run, a view that stays mounted while no new call is made shows, once no call is pending, what was decided at its mount: with nothing pending then, the content delivered last if it mounted alone, else nothing; otherwise the newest call's unless an error answered it. So one that mounts alone after a delivery gets content if and only if nothing is pending or no error answered the newest call |
| `MainView.ViewGetsEverySetEvent` | client-v2/src/utils/view.ts:389-417 | in every run, a mounted view has got exactly the `set` events dispatched since it mounted, the replay to itself included |
| `MainView.SetEventsNeverGoBack` | client-v2/src/utils/view.ts:385-417 | the call numbers of all `set` events, replays included, never go down, and no mounted view gets one call's content twice |
| `MainView.AnswerSettles` | client-v2/src/utils/view.ts:268-276 | in every run, an answer leaves no call listening and settles every one that was, in order, as an error or not; it delivers nothing itself |
| `MainView.MountSettles` | client-v2/src/utils/view.ts:277-280 | a mount settles every call that listens, without an error |
| `MainView.CallListens` | client-v2/src/utils/view.ts:375-378 | a call listens behind those that do, and changes nothing else |
| `MainView.ResumeDelivers` | client-v2/src/utils/view.ts:379-394 | the oldest settled call resumes, and its content goes out exactly if it is the newest and no error answered it |
| `MainView.RunFollowsEvents` | client-v2/src/utils/view.ts:230-248 | the calls and the mounted views of a run are those of its events |
| `MainView.AnsweredCallIsShown` | client-v2/src/utils/view.ts:369-394 | after an answer without an error and as many resumes as calls are settled no call is pending, and a mounted view shows the newest call |
| `MainView.RejectedCallHidesReplay` | client-v2/src/utils/view.ts:401-418 | a run in which a view that mounts gets nothing, as an error answered a call not yet resumed, where it would have got the content delivered before |
| `MainView.StepKeeps` | client-v2/src/utils/view.ts:369-430 | every step keeps the invariant: pending calls are a suffix of all calls, in order, and each view holds what the calls resumed so far say |
| `MainView.RunKeeps` | client-v2/src/utils/view.ts:230-286 | every reachable state satisfies the invariant |
| `MainPrimary.Primary.SetMainPrimary` | client-v2/src/utils/view.ts:369-378 | counting and waiting is the protocol's Call step |
| `MainPrimary.Primary.OnAnswer` | client-v2/src/utils/view.ts:268-276 | an answer settles every waiting call, as a success or as an error |
| `MainPrimary.Primary.AnnounceMainPrimaryMount` | client-v2/src/utils/view.ts:401-418 | the counters, the `unmounted` flag and the replay are the protocol's Mount step |
| `MainPrimary.Primary.AnnounceMainPrimaryUnmount` | client-v2/src/utils/view.ts:425-430 | the clamped counter and the flag are the protocol's Unmount step, also with no view mounted |
| `MainPrimary.Primary.ResumeSetMainPrimary` | client-v2/src/utils/view.ts:379-394 | the oldest settled call resumes: only the newest call delivers, and a rejected one only stops waiting |
| `MainPrimary.ReplayMatches` | client-v2/src/utils/view.ts:405-408 | the flag and the waiting counter allow a replay exactly when the protocol does, and it is the content of the call delivered last, with no other view mounted |
| `ModalStack.NoModalIsStranded` | client-v2/src/utils/view.ts:62-79 | with no host mounted, every open modal has a timer due within `MODAL_HOST_WAIT`; in every continuation in which no host comes and the modal stays open that timer stays armed, may fire once the wait is over, and whenever it fires closes the modal and answers its caller |
| `ModalStack.NoModalIsClosedEarly` | client-v2/src/utils/view.ts:50-79 | a timer closes a modal only if no host was mounted at any moment of the `MODAL_HOST_WAIT` before it |
| `ModalStack.AttachCountSuffices` | client-v2/src/utils/view.ts:64-67 | a timer whose attach count is still current finds no host mounted |
| `ModalStack.OpenModalsAwaitAnswers` | client-v2/src/utils/view.ts:32-38 | open ids are distinct and exactly the keys of the pending answers; each caller is answered at most once, and waits until it is |
| `ModalStack.StepAnswersItsOwn` | client-v2/src/utils/view.ts:575-606 | a step answers at most one caller, the one whose id the close names; the other dialogs stay, in order |
| `ModalStack.OpenOpens` | client-v2/src/utils/view.ts:488-502 | in every run, opening puts the dialog on top, makes its caller wait, and arms a timer of 5000 ms exactly with no host mounted |
| `ModalStack.CloseCloses` | client-v2/src/utils/view.ts:585-595 | closing an open dialog takes it alone out of the stack, the others in order, and answers its caller alone with the data; closing any other id changes nothing |
| `ModalStack.CloseTopCloses` | client-v2/src/utils/view.ts:603-606 | closing the top does the same for the last open dialog, and nothing with none open |
| `ModalStack.FireCloses` | client-v2/src/utils/view.ts:65-78 | a timer goes when it fires and closes its dialog, unanswered, exactly if that is open with no host mounted and none attached since |
| `ModalStack.DisposeArms` | client-v2/src/utils/view.ts:529-536 | the last host to go arms one timer for each open dialog, in order; any other changes no timer |
| `ModalStack.CountersFollowEvents` | client-v2/src/utils/view.ts:524-538 | the hosts mounted, those that ever came and the time are those of the events |
| `ModalStack.StepKeeps` | client-v2/src/utils/view.ts:488-606 | opening, closing, attaching, disposing, timers and time keep the invariant |
| `ModalStack.RunKeeps` | client-v2/src/utils/view.ts:32-79 | every reachable state satisfies the invariant |
| `ModalStack.Stack.DisposeOfHost` | client-v2/src/utils/view.ts:529-536 | disposing counts once; the last host to go arms a timer for every open modal |
| `NoProgramLayoutTheorems.LayoutIsIdempotent` | client-v2/src/utils/framework.ts:204-246 | laying out any layout again with an empty root returns it unchanged, for every root and file list, fallback paths and `-n` names included |
| `NoProgramLayoutTheorems.LayoutFixedPoints` | client-v2/src/utils/framework.ts:111-246 | the lists the layout leaves alone are exactly those with distinct, kept paths in their own folder |
| `NoProgramLayoutTheorems.LayoutConserves` | client-v2/src/utils/framework.ts:188-246 | for every input, duplicate paths included: the contents are those of the kept inputs in input order, the paths are distinct, kept and under `client/` or `tests/`, and scripts stay scripts |
| `NoProgramLayoutTheorems.LayoutIsInjective` | client-v2/src/utils/framework.ts:228-239 | two kept files never get one path |
| `NoProgramLayoutTheorems.TopLevelFilesKeepTheirPaths` | client-v2/src/utils/framework.ts:161-169 | every kept top-level file gets `target/path`, whatever the order, if and only if the top-level paths are distinct after normalisation |
| `NoProgramLayoutTheorems.LayoutHasScript` | client-v2/src/utils/framework.ts:204-246 | the output holds a script if and only if the input does |
| `NoProgramLayoutTheorems.LayoutIsRunnable` | client-v2/src/utils/framework.ts:292-309 | the output has runnable TypeScript if and only if the input has a script, and never a program |
| `NoProgramLayoutTheorems.ConvertToPlaygroundLayout` | client-v2/src/utils/framework.ts:340-360 | with no framework: refused as not a program exactly when program source is there, refused as empty exactly when neither program source nor script is, else the layout, which is runnable |
| `NoProgramLayoutPaths.ImportedFolderIsDropped` | client-v2/src/utils/framework.ts:207-214 | laying out files of an imported folder is laying them out as they are called within it: below it without the folder, elsewhere as they are; slashes around the folder's name, and slashes or a dot and slashes in front of a path, make no difference |
| `NoProgramLayoutPaths.PathIsReadWithin` | client-v2/src/utils/framework.ts:207-214 | how one path is read within an imported folder |
| `NoProgramLayoutPaths.KeptNamesAre` | client-v2/src/utils/framework.ts:117-140 | a name is kept exactly if it ends as a script, or in `.json` of any case and is no tool's file, dotfile or in a dot folder |
| `NoProgramLayoutPaths.ToolConfigIs` | client-v2/src/utils/framework.ts:131-132 | the names that belong to tools, in any folder and any case |
| `NoProgramLayoutPaths.TestsAre` | client-v2/src/utils/framework.ts:142-143 | a test is a name with `.test` or `.spec` before the ending of a script |
| `NoProgramLayoutPaths.FileGoesHome` | client-v2/src/utils/framework.ts:215-226 | one file goes to `tests/` if it is in `tests/` or `test/` or is a test, else to `client/`, below that as it was below its folder, and is left out exactly if it is not kept |
| `NoProgramLayoutPaths.ContestedPath` | client-v2/src/utils/framework.ts:228-239 | of two files of one name and home the one whose turn is first gets the path, top level before `client/` and `tests/` before `test/`, and the other keeps its whole path below that home |
| `NoProgramLayoutPaths.CopiesAreNumbered` | client-v2/src/utils/framework.ts:179-186 | files of one name at the top level get it with `-2`, `-3`, ... before the ending, in order |
| `NoProgramLayoutPaths.HasProgramIs` | client-v2/src/utils/framework.ts:111-115 | a program is a Rust or Python file anywhere under `src/` |
| `NoProgramLayoutPaths.HasRunnableIs` | client-v2/src/utils/framework.ts:304-309 | something to run is a script in `client/` or `tests/` |
| `Text.DecimalReadsBack` | client-v2/src/utils/framework.ts:183-183 | a printed number reads as itself, with no zero in front |
| `NoProgramLayoutOrder.OrderMattersExactly` | client-v2/src/utils/framework.ts:161-169 | for every list of files: every file gets the same path in every order of the list if and only if no two kept files of one rank have one first choice, which is found from the list alone, rank by rank: what each file would pick next to the first choices of the lower ranks |
| `NoProgramLayoutOrder.FirstPicksArePlaced` | client-v2/src/utils/framework.ts:228-239 | if the first choices of each rank differ, the layout hands each file its first choice |
| `NoProgramLayoutOrder.PlacedInTurn` | client-v2/src/utils/framework.ts:228-239 | each kept file gets the path it picks given those of the files of lower rank and of those of its own rank before it |
| `NoProgramLayoutOrder.InTurnIsUnique` | client-v2/src/utils/framework.ts:228-239 | only one assignment of paths lets each file pick in turn |
| `NoProgramLayoutOrder.PickIgnoresOthers` | client-v2/src/utils/framework.ts:233-236 | taken paths that a file would not pick do not change what it picks |
| `NoProgramLayoutOrder.LayoutIsPlaced` | client-v2/src/utils/framework.ts:241-245 | the output is the kept files in input order, each with its path |
| `NoProgramLayoutOrder.OrderMattersForTies` | client-v2/src/utils/framework.ts:166-169 | of two kept files the order matters if and only if they have one rank and want one path |
| `NoProgramLayoutOrder.TestsOfTwoFoldersTie` | client-v2/src/utils/framework.ts:217-223 | the order matters for a test of one name in `client/` and in `tests/` |
| `NoProgramLayoutOrder.FallbackContestsOwnPath` | client-v2/src/utils/framework.ts:230-239 | the order matters for three scripts although no two of one rank want one path: a fallback contests an own path |
| `NoProgramLayoutTheorems.PathForIsSettled` | client-v2/src/utils/framework.ts:233-236 | own path, fallback and numbered fallback are all kept paths in their own folder, and are scripts exactly if the file is |
| `NoProgramLayoutTheorems.CandidateIsKept` | client-v2/src/utils/framework.ts:120-140 | a numbered name of a kept file is kept: it never becomes a tool configuration name |
| `NoProgramLayoutTheorems.NormaliseKeepsScripts` | client-v2/src/utils/framework.ts:207-214 | dropping slashes and the root never changes whether a path is a script |
| `NoProgramLayout.ToNoProgramLayout` | client-v2/src/utils/framework.ts:204-246 | the loop over sorted files with its set of taken paths computes the layout |
| `NoProgramLayout.PlaceFiles` | client-v2/src/utils/framework.ts:228-239 | each file gets the path that is its first choice given those placed before it |
| `NoProgramLayout.FindFreePath` | client-v2/src/utils/framework.ts:179-186 | the search ends with the first free name |
| `NoProgramLayout.FirstFree` | client-v2/src/utils/framework.ts:182-185 | the first number whose name is free, at most as many tries as names are taken, by pigeonhole |
| `NoProgramLayout.FreePathTries` | client-v2/src/utils/framework.ts:179-186 | with the path itself, at most one name more than are taken is tried |
| `NoProgramLayout.PlacementOrderIsStable` | client-v2/src/utils/framework.ts:230-231 | the order is a stable sort by rank of all kept files |
| `CommandSpec.CreateArgs` | client-v2/src/commands/create.ts:57-78 | accepted exactly when optional arguments come last and only the last takes many |
| `CommandSpec.CreateOptions` | client-v2/src/commands/create.ts:86-117 | accepted exactly when the shorts are single letters and differ between options of different names; each short is then normalised |
| `CommandSpec.FindDuplicate` | client-v2/src/commands/create.ts:108-110 | another option has the short exactly when one is found |
| `CommandSpec.AcceptedOptionsAreDistinct` | client-v2/src/commands/create.ts:46-49 | accepted options, with help added, have distinct names if and only if the declared ones have and none is `help`, and then distinct shorts if and only if none is `h` or empty |
| `CommandSpec.HostClashesWithHelp` | client-v2/src/commands/create.ts:46-49 | an accepted option whose short is that of help |
| `CommandTheorems.LineReadsBack` | client-v2/src/utils/command.ts:508-641 | for every interleaving of rendered options among positionals, help not first, option values that name options included: the line is handled if and only if the positionals fit and every option parses, gives back the positionals in order and every option as it reads, and gives each option back as first given if and only if each one reads back; with no arguments declared the positionals are dropped |
| `CommandTheorems.ValueSetsNamedFlag` | client-v2/src/utils/command.ts:609-613 | a value that names another option sets that option, although it was not given |
| `CommandTheorems.ParentRefusesTokens` | client-v2/src/utils/command.ts:533-545 | a command with subcommands and no arguments fails on every rendered line that is not empty and does not ask for help |
| `CommandTheorems.PositionalsParseWhenTheyFit` | client-v2/src/utils/command.ts:546-604 | positionals alone are handled if and only if they are at least the required and, unless the last takes many, at most the declared ones, with allowed values; they are then all assigned in order and no option is set |
| `CommandTheorems.ArgumentsParseWhen` | client-v2/src/utils/command.ts:557-604 | arguments parse if and only if the required ones are given and the values are allowed |
| `CommandTheorems.ArgumentsAreConserved` | client-v2/src/utils/command.ts:557-604 | the assigned values, in declaration order, are the input |
| `CommandTheorems.SplitInvertsRendering` | client-v2/src/utils/command.ts:508-531 | splitting a rendered line finds its positionals, if arguments are declared, and its option tokens, in order |
| `CommandTheorems.OptionReadsBack` | client-v2/src/utils/command.ts:606-641 | an option reads back as first given if and only if no value names it before that, or it is given and takes no value or happens to be given what follows that value |
| `CommandTheorems.OptionReads` | client-v2/src/utils/command.ts:606-641 | an option reads as it was first given among any others, or as what follows the value that names it before that |
| `CommandTheorems.QuietValuesReadBack` | client-v2/src/utils/command.ts:606-641 | an option that no value names reads back |
| `CommandTheorems.OptionsParseBack` | client-v2/src/utils/command.ts:606-641 | all options of a line parse if and only if each one reads as something allowed, and read back if and only if each one does; if each does, they parse if and only if the given values are allowed |
| `CommandTheorems.BareCommandIgnoresTokens` | client-v2/src/utils/command.ts:454-455 | a command with help alone ignores what follows it |
| `CommandTheorems.SubcommandsAreReached` | client-v2/src/utils/command.ts:419-439 | a line of a command and its subcommands is handled by the last of them, or shows its usage if it has no handler, unless it goes on with one of its subcommands; the command's name enters a subcommand of that name |
| `CommandOutcomes.HelpIsShown` | client-v2/src/utils/command.ts:454-505 | a command with an argument or a second option shows help when `--help` or `-h` comes first, whatever follows, and does not run |
| `CommandOutcomes.LineNeedsACommand` | client-v2/src/utils/command.ts:349-373 | an empty line does nothing, and an unknown first token is said to be one |
| `CommandOutcomes.CommandIsReached` | client-v2/src/utils/command.ts:352-354 | a line goes to the first command of its name: to its handler, or to its usage if it has none |
| `CommandOutcomes.SubcommandIsFound` | client-v2/src/utils/command.ts:423-426 | a name leads to the first subcommand of that name |
| `CommandOutcomes.UnknownOptionFails` | client-v2/src/utils/command.ts:517-524 | a token with a dash that names no option fails the line, wherever it stands outside of a value |
| `CommandOutcomes.TooManyFail` | client-v2/src/utils/command.ts:546-553 | too many positionals fail the line, whatever else is wrong with it |
| `CommandOutcomes.BadArgumentFails` | client-v2/src/utils/command.ts:557-604 | otherwise the first argument that does not take what it is given fails it: it is missing, or the first value it does not allow |
| `CommandOutcomes.BadOptionFails` | client-v2/src/utils/command.ts:606-641 | otherwise the first option that does not parse fails it, for its own reason |
| `CommandOutcomes.HandlerGets` | client-v2/src/utils/command.ts:595-602 | an argument of a handled line is its one value, all values from its place if it takes many, or absent |
| `CommandOutcomes.EmptyNextTokenEndsLine` | client-v2/src/utils/command.ts:508-508 | a line whose next token is empty is read as if nothing followed |
| `CommandOutcomes.EmptyArgumentIsMissing` | client-v2/src/utils/command.ts:562-574 | an empty token does not count for an argument that takes one |
| `CommandOutcomes.EmptyValueLetsThrough` | client-v2/src/utils/command.ts:582-592 | as the first value that is not allowed, an empty one lets all values of an argument that takes many through |
| `CommandOutcomes.EmptyOptionValueIsMissing` | client-v2/src/utils/command.ts:615-619 | an empty token is no value for an option |
| `CommandParser.SplitTokens` | client-v2/src/utils/command.ts:508-531 | the loop over tokens is the split that the theorems are about |
| `CommandParser.ParseArguments` | client-v2/src/utils/command.ts:557-604 | the loop over arguments, stopping at its first error, is the parse that the theorems are about |
| `CommandParser.ParseOptions` | client-v2/src/utils/command.ts:606-641 | the loop over options, stopping at its first error, is the parse that the theorems are about |
| `CommandParser.HandleTokens` | client-v2/src/utils/command.ts:454-641 | help, split, count check, arguments and options, in this order |
| `CommandParser.ExecuteTokens` | client-v2/src/utils/command.ts:347-452 | the loop down the subcommands |
| `CommandRuns.AbortedByAStop` | client-v2/src/utils/command.ts:681-702 | an aborted run was aborted by an earlier stop that found it stoppable |
| `CommandRuns.StopTellsTheTruth` | client-v2/src/utils/command.ts:681-702 | `stop` returns true if and only if some run in flight is aborted afterwards |
| `CommandRuns.SecondStopIsIdle` | client-v2/src/utils/command.ts:670-702 | a second stop right away aborts nothing, answers the same, and prints nothing if a run is stopping |
| `CommandRuns.StopAbortsExactly` | client-v2/src/utils/command.ts:686-693 | a stop aborts the runs it finds stoppable, no other, and changes nothing else |
| `CommandRuns.AtMostOneClock` | client-v2/src/utils/command.ts:400-414 | at most one slow-run clock ticks, and its owner is the oldest run in flight |
| `CommandRuns.AtMostOneFinish` | client-v2/src/utils/command.ts:660-666 | each started run finishes at most once, and not while it is in flight |
| `CommandRuns.RunsFollowEvents` | client-v2/src/utils/command.ts:386-414 | in every run of the manager, a command run is in flight exactly from its start to its end, and its name, whether it can stop and whether it is aborted are what its own events and the stops made of them |
| `CommandRuns.RunFollowsEvents` | client-v2/src/utils/command.ts:643-666 | the order of the runs, the clocks and the finish events are those of the events: a clock for each run that started alone until it ends, a finish for each that ended with a result |
| `CommandRuns.StopSaysInterrupted` | client-v2/src/utils/command.ts:686-693 | a stop says that it interrupts exactly if it aborts a run that was not aborted |
| `CommandRuns.StopSaysWhy` | client-v2/src/utils/command.ts:684-701 | otherwise it is silent exactly if no run is in flight or one is already stopping, and else says which step or command it cannot stop |
| `CommandRuns.StepKeeps` | client-v2/src/utils/command.ts:386-414 | starts, handlers, locks, stops and ends keep the invariant |
| `CommandRuns.Manager.StopRuns` | client-v2/src/utils/command.ts:681-702 | the new runs, the answer and the line of a stop |
| `StoredEndpointTheorems.ConnectionReads` | client-v2/src/settings/stored-endpoint.ts:44-71 | for any two network addresses: a public address moves to the offered network, every other provided or parseable address stays, the rest is the default |
| `StoredEndpointTheorems.ConnectionReadsOnce` | client-v2/src/settings/stored-endpoint.ts:124-187 | writing and reading a connection endpoint twice is doing it once, for every string |
| `StoredEndpointTheorems.ConnectionKeepsExactly` | client-v2/src/settings/stored-endpoint.ts:124-187 | the connection endpoints that come back unchanged, exactly |
| `StoredEndpointTheorems.ServerReads` | client-v2/src/settings/stored-endpoint.ts:59-70 | a build server comes back unchanged if it is provided or parses, else as the default, for any configured server |
| `StoredEndpointTheorems.ServerReadsOnce` | client-v2/src/settings/stored-endpoint.ts:124-187 | writing and reading a build server twice is doing it once, for every string |
| `StoredEndpointTheorems.ReadsLikeLegacy` | client-v2/src/settings/stored-endpoint.ts:164-173 | write and read agrees with reading the address stored as plain text |
| `StoredEndpointTheorems.CustomReadsBack` | client-v2/src/settings/stored-endpoint.ts:131-183 | an address outside the list comes back byte for byte if it parses, else as the default |
| `StoredEndpointTheorems.CustomSurvivesRotation` | client-v2/src/settings/stored-endpoint.ts:175-181 | a custom address comes back untouched under any other options |
| `StoredEndpointTheorems.NetworksFollowTheEnvironment` | client-v2/src/settings/stored-endpoint.ts:116-137 | a profile on an offered network reads as the address the environment offers now |
| `StoredEndpointTheorems.OtherSettingsStay` | client-v2/src/settings/stored-endpoint.ts:81-93 | writing and reading change no setting but the two endpoints, and drop and add none |
| `StoredEndpointTheorems.DropIsAProjection` | client-v2/src/settings/stored-endpoint.ts:238-254 | exactly the trees that fit the defaults are left alone, and dropping twice is dropping once |
| `StoredEndpointTheorems.DroppedFits` | client-v2/src/settings/stored-endpoint.ts:216-254 | what is kept fits the defaults at every depth: objects over objects, `null` over `null`, arrays over arrays, anything under unknown keys |
| `StoredEndpointTheorems.DroppedWithin` | client-v2/src/settings/stored-endpoint.ts:238-254 | what is kept is the stored tree with entries deleted, nothing changed or added |
| `StoredEndpointTheorems.DropKeepsTheMost` | client-v2/src/settings/stored-endpoint.ts:222-236 | every fitting tree that deletions can make of the stored one is within what is kept, so nothing is dropped needlessly |
| `StoredEndpointTheorems.FittingIsKept` | client-v2/src/settings/stored-endpoint.ts:238-254 | a tree that fits loses nothing |
| `StoredEndpointTheorems.LoadedFits` | client-v2/src/utils/settings.ts:162-166 | whatever is stored, what loads fits the defaults |
| `StoredEndpointTheorems.EndpointLoads` | client-v2/src/utils/settings.ts:162-166 | anything stored for an endpoint of an object group loads as a string, the one it resolves to |
| `StoredEndpointTheorems.BrokenEndpointLoadsDefault` | client-v2/src/settings/stored-endpoint.ts:156-187 | a stored key whose option is gone, a custom address that does not parse, text that is neither provided nor parses, and nonsense load as the default |
| `StoredEndpointTheorems.StoredKeyLoads` | client-v2/src/settings/stored-endpoint.ts:183-184 | a stored key of the list loads as the address first listed under it |
| `StoredEndpointTheorems.CustomReads` | client-v2/src/settings/stored-endpoint.ts:179-181 | a custom endpoint reads as its address if that parses, else as the default |
| `StoredEndpointTheorems.TextReads` | client-v2/src/settings/stored-endpoint.ts:164-173 | plain text reads as the address its key is first listed with if provided, else as itself if it parses, else as the default |
| `StoredEndpointTheorems.ProvidedIsStoredAsKey` | client-v2/src/settings/stored-endpoint.ts:131-135 | a provided address is stored as the key it is first listed under, and not itself |
| `StoredEndpointTheorems.CustomIsStored` | client-v2/src/settings/stored-endpoint.ts:131-135 | any other address is stored as it is |
| `StoredEndpointTheorems.WrittenIsStored` | client-v2/src/settings/stored-endpoint.ts:124-137 | writing stores both endpoints where the state has them |
| `StoredEndpointTheorems.MapSettingReplaces` | client-v2/src/settings/stored-endpoint.ts:82-93 | mapping a setting replaces its value in its group, and leaves a state without it alone |
| `StoredEndpointTheorems.AddressesAre` | client-v2/src/constants/connection.ts:4-10 | the addresses that the application provides |
| `StoredEndpointTheorems.ServerFollowsTheEnvironment` | client-v2/src/settings/stored-endpoint.ts:59-67 | a profile on the configured server reads as the one configured now, and as the default if there is none |
| `StoredEndpointTheorems.WrittenLoads` | client-v2/src/utils/settings.ts:140-173 | settings that fit come back from storage whole, but for what their endpoints read back as |
| `StoredEndpointTheorems.RoundTripExactly` | client-v2/src/utils/settings.ts:140-173 | they come back equal if and only if both endpoints read back as themselves |
| `StoredEndpointTheorems.SettingsSettle` | client-v2/src/utils/settings.ts:140-173 | for any environment, a second trip through storage returns what the first one did |
| `Routes.ParseInvertsFill` | client-v2/src/utils/router.ts:183-245 | for any template of distinct variables kept apart by literals, a filled path, with or without one more slash, gives back its values if and only if each avoids the first character of the literal after it and the last one does not lose to the slashes |
| `Routes.TrailingSlashChangesNothing` | client-v2/src/utils/router.ts:219-226 | one more slash changes nothing if and only if the closing literal does not end in `/`, or the closing value is not empty |
| `Routes.MatchesExactly` | client-v2/src/utils/router.ts:183-245 | for every template of distinct variables kept apart by literals and every path: parsing gives a result if and only if the path gives the first variables values that avoid the literals behind them and then ends inside a literal of a template that closes with nothing or a slash, behind the last variable with at most one slash, or as the closing literal up to one slash; the result is those values, the other variables empty |
| `Routes.StoppedPathMatches` | client-v2/src/utils/router.ts:201-234 | for every template, a path that stops inside any literal before the last variable matches if and only if the template ends in a variable or in one slash behind it; the values so far come back and the others are empty |
| `Routes.UnclosedTemplateFails` | client-v2/src/utils/router.ts:209-213 | a template whose brace is not closed says so on every path that agrees with the literal before it, and does not match any other |
| `Routes.WellFormedIsClosed` | client-v2/src/utils/router.ts:209-213 | a template whose braces are closed is never said to be unclosed |
| `Routes.PathsEqualIs` | client-v2/src/utils/common.ts:1294-1329 | paths are equal if they are, or differ in one slash at the end of the one |
| `Routes.ParseLevel` | client-v2/src/utils/router.ts:189-241 | the next level of the recursion has strictly less template |
| `Routes.ValueBefore` | client-v2/src/utils/router.ts:231-234 | the value is the part of the path up to the next literal's first character, or to the end of the path |
| `ClusterRead.FreshNamesTheSelected` | client-v2/src/utils/connection.ts:223-234 | the cluster last returned is that of `_clusterEndpoint`, so one that is not stale is the selected endpoint's |
| `ClusterRead.RetriesAreChanges` | client-v2/src/utils/connection.ts:240-270 | a read retries at most as often as the endpoint changed during it |
| `ClusterRead.ChangesCount` | client-v2/src/utils/connection.ts:240-246 | what is counted as a change is a selection of another endpoint than the one before |
| `ClusterRead.QuietAndStaleMeansFailed` | client-v2/src/utils/connection.ts:249-260 | with no read in flight, a stale cluster means that a read of the selected endpoint itself failed since it was selected |
| `ClusterRead.ReturnedWhenSelected` | client-v2/src/utils/connection.ts:267-269 | in every run, the cluster was returned by a read of the endpoint selected at that moment, and no read has returned since |
| `ClusterRead.SelectAsks` | client-v2/src/utils/connection.ts:111-115 | in every run, a selection selects the endpoint and asks it in a new read |
| `ClusterRead.ReadAsks` | client-v2/src/utils/connection.ts:240-249 | a read asks the endpoint selected at its start |
| `ClusterRead.AnswerEndsOrAsksAgain` | client-v2/src/utils/connection.ts:249-270 | an answer or a failure of an endpoint not selected any more makes its read ask the selected one; any other ends its read, and publishes the cluster exactly if it is no failure |
| `ClusterRead.StepKeeps` | client-v2/src/utils/connection.ts:240-270 | selections, starts and answers keep the invariant |
| `ClusterRead.Reader.OnAnswer` | client-v2/src/utils/connection.ts:249-270 | retry, failure or return, by the endpoint selected when the answer comes |
| `DownloadPool.ReportsCountFilledSlots` | client-v2/src/utils/github.ts:299-311 | the reports are 0, 1, 2, ... and the last one is the number of filled slots |
| `DownloadPool.ArrivalFillsItsEmptySlot` | client-v2/src/utils/github.ts:305-310 | what arrives fills its own slot, which was empty, with its entry's content, and no other |
| `DownloadPool.EachEntryHasOneClaim` | client-v2/src/utils/github.ts:305-307 | an entry claimed and not filled is held by exactly one worker, one filled by none |
| `DownloadPool.AllDoneMeansAllFilled` | client-v2/src/utils/github.ts:292-318 | when every worker is done, slot i holds the file of entry i, for every i |
| `DownloadPool.WorkGoesOn` | client-v2/src/utils/github.ts:305-315 | as long as nothing failed, a download is under way exactly until every slot is filled |
| `DownloadPool.StartsAllWorkers` | client-v2/src/utils/github.ts:299-315 | a download starts with up to 24 workers, each on the entry of its number, and a report of nothing loaded |
| `DownloadPool.WorkerGoesOn` | client-v2/src/utils/github.ts:304-312 | in every run, a worker whose file arrived reports one more and takes the next entry, or is done if none is left; one whose download fails stops; the others go on |
| `DownloadPool.StepKeeps` | client-v2/src/utils/github.ts:304-312 | every arrival and failure keeps the invariant |
| `DownloadPool.Download.constructor` | client-v2/src/utils/github.ts:299-315 | the workers, at most 24, each hold their first entry |
| `DownloadPool.Download.OnSettled` | client-v2/src/utils/github.ts:305-311 | a worker fills its slot, reports and claims the next entry, or ends |
| `Transactions.PreparedIsPrefixed` | client-v2/src/utils/tx.ts:130-178 | over any number of attempts the instructions are the original ones behind one prefix, with the first fee that is not zero |
| `Transactions.PrefixHoldsOneOfEach` | client-v2/src/utils/tx.ts:143-178 | the prefix holds at most one price and one limit, each only if the original had none |
| `Transactions.PrefixHas` | client-v2/src/utils/tx.ts:143-178 | when exactly the prefix has a price and when it has a limit |
| `Transactions.BudgetCarriesItsNumber` | client-v2/src/utils/tx.ts:156-178 | the instructions put in front are the compute budget's and carry the fee and the limit asked for |
| `Transactions.SentMessages` | client-v2/src/utils/tx.ts:65-99 | each message is the original behind its prefix, is paid by the wallet given or else by the one connected at its attempt, and has that wallet's and each signer's signature over that message; the first one uses the blockhash at hand unless told to fetch one, each retry one fetched for it and no other signature |
| `Transactions.Transaction.Send` | client-v2/src/utils/tx.ts:65-99 | attempts go on while the answer is retryable; the wallet given pays for every message whatever is connected, and without one the send ends exactly at the first attempt with none connected; the messages sent, the new instructions, the result, and one event exactly on success |
| `Transactions.Transaction.Prepare` | client-v2/src/utils/tx.ts:130-202 | instructions, blockhash, fee payer and signatures of a prepared transaction |
| `Transactions.Transaction.Sign` | client-v2/src/utils/tx.ts:186-199 | every signer signs, replacing what it signed before, and other signatures stay |
| `SerialQueue.RunsInPushOrder` | client-v2/src/utils/common.ts:188-211 | the calls made are a prefix of the pushes in order, never two at a time, and all of them when none is under way and none rejected |
| `SerialQueue.NothingRunsAfterARejection` | client-v2/src/utils/common.ts:194-205 | after a rejection no call is ever made again |
| `SerialQueue.AllRunExactlyWhen` | client-v2/src/utils/common.ts:194-210 | with a rejection, every push has run if and only if none was queued behind it or came after it |
| `SerialQueue.CallsSettle` | client-v2/src/utils/common.ts:199-204 | every call made is under way until it settles |
| `SerialQueue.RejectedBySettling` | client-v2/src/utils/common.ts:199-204 | a rejection is a call that settled so |
| `SerialQueue.NextIsCalled` | client-v2/src/utils/common.ts:188-211 | a push with no call under way is run at once unless a callback has rejected, and so is the next one when a call settles |
| `SerialQueue.StepKeeps` | client-v2/src/utils/common.ts:191-210 | pushes and settlements keep the invariant |
| `RandomBigInt.GenerateRandomBigInt` | client-v2/src/utils/common.ts:831-845 | the value lies between `min` and `min` plus the width modulo 2^64, so it is in range if and only if `min <= max` |
| `RandomBigInt.GivesExactly` | client-v2/src/utils/common.ts:831-845 | the values some draws give: those whose distance from `min` has no byte above that of the width |
| `RandomBigInt.EveryValueIsGivenExactly` | client-v2/src/utils/common.ts:831-845 | every value from `min` to `max` can be given if and only if the width fits 64 bits and every byte below its highest that is not zero is 255 |
| `RandomBigInt.EndsAreGiven` | client-v2/src/utils/common.ts:831-845 | both ends of a range narrower than 64 bits can be given |
| `RandomBigInt.NotEachValueIsGiven` | client-v2/src/utils/common.ts:831-845 | the second of 257 values is never given |
| `RandomBigInt.RandomIntStays` | client-v2/src/utils/common.ts:820-822 | a drawn integer stays in its range |
| `RandomBigInt.RandomIntReaches` | client-v2/src/utils/common.ts:820-822 | every integer of the range can be drawn |

## Left out

- The React components, hooks and styles, the build configuration, and the
  loader inside the `Primary` component, whose asynchronous elements may finish
  out of order.
- `client/`, the older copy of the same utilities, `server/` and `wasm/`.
- The `updatable` and `derivable` decorators: publishing a derived value is one
  step with the read's return, and the derived cluster is read once at the
  start and at each change of the setting.
- Handlers that a dispatched event calls are later steps of a machine, never
  nested in the step that dispatched it.
- Modal ids from `uuid()` are assumed new; focus, openers and the reports that
  go to the log are not modelled.
- `parse` functions of arguments and options, `values` given as functions,
  pre-checks, the offline check, help and usage texts, unknown-command
  suggestions and telemetry.
- `parseStoredSettings` and JSON text itself: a stored state is a tree, and
  writing and parsing JSON is taken to give the same tree back. `isAddress` is
  any predicate on strings. The order of an object's keys is not modelled.
- ClusterRead.FreshNamesTheSelected: the cluster of an endpoint is a fixed
  function of it, although a custom endpoint could answer differently later.
- Routes.ParseInvertsFill: templates whose variables touch or share a name are
  outside the statement, as no route has such variables.
- Transactions.Transaction.Send: signers are taken to keep the instructions,
  and a `send` that is never answered for good is a result of its own
  (`Retrying`). The choice of the priority fee and its median are parameters,
  and so is the connection. That the library drops signatures which do not
  match the compiled message's signers is not modelled.
- RandomBigInt.GenerateRandomBigInt: `Math.random()` is a real number, so
  rounding is not modelled.
- GitHub requests, error texts, ZIP export and workspace files.
- The rest of `common.ts`, `router.ts`, `github.ts`, `tx.ts` and
  `connection.ts`, which would add easy members only.
