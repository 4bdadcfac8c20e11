# Voltius state machines, modelled in Dafny

Voltius is a desktop and mobile SSH client. This project models the parts of it that carry invariants
across many calls, and proves those invariants over every run: the single-item keychain bundle, the
terminal output stream, the detached-session reaper with its idle check and its payload encoder, the
port-forwarding state cache, the known-hosts store with its early-cancel queue, the plugin tool registry
with its per-client caches, the plugin import rewriter, the locale fallback resolver, the text-field
undo history and the personal/team connection lookup.

Run `dafny verify dfyconfig.toml`, or `dafny verify` with all `.dfy` files.

## How the files fit together

Code that changes state step by step is modelled twice: as a function on a value that holds the whole
state, and as a class whose methods update fields in place as the code does. Every method states its new
state as that function of the old one; the properties are lemmas about the functions and about whole runs
of them.

| file | models |
|---|---|
| `KeychainBundle.dfy`, `BundleStore.dfy`, `KeychainMemory.dfy` | the credential bundle over an unreliable store: what each operation does call by call and what a caller sees; the code; what is remembered and which failures show |
| `TerminalOutput.dfy`, `OutputStreams.dfy`, `TerminalHistory.dfy` | one output stream over all its events; the code, with the table of streams; what its state owes to its history |
| `Reaper.dfy`, `ReaperRounds.dfy`, `ReaperProgress.dfy` | the reaper script, one command a step, any number of copies, any environment; its checks and naps; that a script left alone comes to its kill in time |
| `IdleCheck.dfy` | the process-table walk |
| `PrintfEscape.dfy` | the encoder, and how a POSIX shell and printf read its output |
| `PfStates.dfy`, `PfStore.dfy` | the port-forwarding state cache over all its events; the code |
| `PendingConflicts.dfy`, `KnownHosts.dfy` | the early-cancel queue and prompts; the trust store |
| `Contributions.dfy`, `McpTools.dfy` | the tool registry and client caches over all their events; the code |
| `HostModules.dfy`, `Bundles.dfy`, `InputUndo.dfy`, `AllConnections.dfy` | the import rewriter, the locale resolver, undo and redo, the connection lookup |

How the surroundings are modelled:

- **Keychain.** A map whose every call may fail without effect. Which calls fail is an arbitrary function of
  the call's number. The contents after every call are recorded, so a crash is any recorded point followed
  by an empty cache. Bytes are abstract up to the JSON and base64 codecs, which are assumed to decode what
  they encode; bytes that neither produced model corruption.
- **Clocks and timers.** A number that only grows. A timer is a deadline, run by an event of its own at or
  after it.
- **The reaper's surroundings.** Between any two commands of any script, clients may come and go, TTLs and CPU
  times may change, time may pass, the session may end or be made anew, scripts may start or die. Only
  two things are assumed: time does not go back, and nothing but a reaper writes a stamp. Process ids
  are unique among live scripts only. One read of the CPU sum is one step.
- **JavaScript.** A pushed event is a task of its own, so it finds no microtask queued. Answers to
  requests may come at any time.
- **Platform values.** Ids, times and the lexer's ranges are parameters.

## What turned out otherwise than expected

The code is followed where it differs from what its text or a reader would expect:

- A delete can report success for a key that did not exist (`DeleteOverReports`), exactly when nothing is
  recorded of the key, loading and saving the bundle succeed and erasing the older item fails
  (`WhenDeleteOverReports`).
- The reaper's last check and its kill are separate commands, so a client that attaches between them loses
  its session (`KillCanMeetAClient`). The kill is clean exactly when clients, TTL and stamp still are as they
  were last read (`WhenKillIsClean`).
- Cancelling a session again does not renew its place among the early cancels (`RepeatDoesNotRenew`);
  `EarlyCancelLimit` gives the exact limit.
- The encoder leaves a dash as it is, so a script of more than one character that starts with one is taken for
  options by printf; every other script comes through (`WhenPrintfReadsBack`, `UnwrapsToScript`).
- The comment on the import rewriter says every specifier is refused that is neither the host's nor
  relative, and every dynamic import of anything but a string literal. Two kinds get through, and
  `WhenImportsEscape` says exactly which imports they are. The lookup also finds names that every JavaScript
  object inherits, such as `constructor` (`AnInheritedNameEscapes`). And of a dynamic import's argument only
  the first and last character are looked at, so an expression that starts and ends with the same quote
  passes as one literal (`AnExpressionEscapes`).
- A reconnect reads a session's tunnels again but does not outdate a request already under way, whose older
  answer may come later and stay (`OlderAnswerCanReturn`); `WhenNewerAnswerStands` says exactly when it cannot.
- Locales that fall back on each other in a ring, or lead into one, can get bundles that depend on the order
  they are taken in (`RingDependsOnOrder`): the walk stops at the member the order enters the ring at
  (`RingIsWalkedToItsEntry`). The order does not matter exactly when no section of the ring is missing from
  the locale, its way in and the first two members it meets (`WhenOrderMatters`); so never in a ring of two
  (`PairNeverDepends`), nor when the fallbacks end (`OrderDoesNotMatter`).
- Not every edit of a text field can be undone: `WhenEditsUndo` says exactly after how many undos the replaced
  text is back, `EditsThatCanBeUndone` whether it ever is, and after the first edit it never is
  (`FirstEditCannotBeUndone`). Undoing past the start and redoing as often can end ahead of the starting
  point (`RedosRestore` says exactly when).

## Model

| member | source | states |
|---|---|---|
| KeychainBundle.ServeRefinesPlainMap | src-tauri/src/keychain_bundle.rs:94-150 | Whichever inner calls fail, a get, set or delete moves the visible map exactly as a plain map's would or not at all, its reply is truthful, an error leaves the store as it was, every point between two inner calls shows the map before or after the request, an older item disappears only when the bundle has persisted its key, and without failures the reply is the plain map's own |
| KeychainBundle.RunRefinesPlainMap | src-tauri/src/keychain_bundle.rs:55-150 | Over every run of requests, failures, crashes at any inner call and relaunches, each step is one the plain map allows, and the persisted bundle stays part of the cached one, the rest being tombstones of keys without an older item |
| KeychainBundle.StepRefinesPlainMap | src-tauri/src/keychain_bundle.rs:55-150 | The same for one event, crash and relaunch included |
| KeychainBundle.ViewMovesOnlyByWrites | src-tauri/src/keychain_bundle.rs:94-150 | A key's visible value moves only in events that write that very key, so services and users never disturb each other, and reads and relaunches move nothing |
| KeychainBundle.AcknowledgedWritesLast | src-tauri/src/keychain_bundle.rs:94-150 | After an acknowledged set every later successful read returns that secret, and after a delete no later read returns anything, over crashes and launches, until the key's next write, even if the older item survived |
| KeychainBundle.OpenedMirrors | src-tauri/src/keychain_bundle.rs:29-36 | Loading changes nothing stored, caches a bundle that agrees with the store, and on failure caches nothing; unreadable bytes fail the load |
| KeychainBundle.WriteSound | src-tauri/src/keychain_bundle.rs:83-91 | A write moves exactly the one key in store and cache alike, or fails and leaves both agreeing as before |
| KeychainBundle.RetireSound | src-tauri/src/keychain_bundle.rs:43-53 | Retiring the older item of a recorded key is invisible, whether it works or not |
| KeychainBundle.WhenDeleteOverReports | src-tauri/src/keychain_bundle.rs:136-149 | Deleting an absent key reports success exactly when nothing is recorded of it, neither the load nor the save fails, and the erase call does |
| KeychainBundle.DeleteOverReports | src-tauri/src/keychain_bundle.rs:143-147 | Such a run exists, on an empty store |
| KeychainMemory.MissesAreRemembered | src-tauri/src/keychain_bundle.rs:107-150 | Once a read or delete has answered that there is no entry, every later read and delete of the key answers so without any inner call, whatever the store would do, until the key is set or the process ends |
| KeychainMemory.SecretsAreRemembered | src-tauri/src/keychain_bundle.rs:95-134 | A key that was set, or read and moved into the bundle, is read without any inner call until it is written again or the process ends |
| KeychainMemory.FoundSecretsMove | src-tauri/src/keychain_bundle.rs:116-120 | A read without failing calls that finds a secret leaves it in the bundle |
| KeychainMemory.StaysOpen | src-tauri/src/keychain_bundle.rs:55-66 | A service once loaded stays cached while the process lives and is not loaded again |
| KeychainMemory.WhenReadsFail | src-tauri/src/keychain_bundle.rs:107-134 | The exact reply of a read: only loading the bundle and reading an item it has no record of can make it fail; moving the item may fail and the secret is returned |
| KeychainMemory.WhenSetsFail | src-tauri/src/keychain_bundle.rs:95-105 | A set fails exactly when loading or saving the bundle does |
| KeychainMemory.WhenDeletesFail | src-tauri/src/keychain_bundle.rs:136-149 | The exact reply of a delete under every pattern of failures |
| BundleStore.Shared.Load | src-tauri/src/keychain_bundle.rs:29-36 | Reads the bundle item as the proved operation does and leaves the cache alone |
| BundleStore.Shared.Persist | src-tauri/src/keychain_bundle.rs:38-41 | Stores the bundle or fails without effect, and leaves the cache alone |
| BundleStore.Shared.RetireLegacy | src-tauri/src/keychain_bundle.rs:45-53 | One deletion of the key's own item, its outcome passed on |
| BundleStore.Shared.WithBundle | src-tauri/src/keychain_bundle.rs:55-66 | Fills the service's slot in the cache only when the load works |
| BundleStore.BundledCred.Write | src-tauri/src/keychain_bundle.rs:85-91 | Reaches, field by field, the state the proved write reaches: the cache changes only after the store did |
| BundleStore.BundledCred.SetSecret | src-tauri/src/keychain_bundle.rs:95-104 | Runs call for call as the set that refines the plain map |
| BundleStore.BundledCred.GetSecret | src-tauri/src/keychain_bundle.rs:106-134 | Answers from the bundle, tombstones included, else moves the older item in and answers with it even if that fails; a miss is recorded |
| BundleStore.BundledCred.DeleteCredential | src-tauri/src/keychain_bundle.rs:136-150 | Runs call for call as the delete that refines the plain map |
| BundleStore.Store.Build | src-tauri/src/keychain_bundle.rs:209-231 | Other services pass through, modifiers and the reserved user are refused, everything else shares one cache |
| TerminalOutput.OutputIsConserved | src-tauri/src/terminal_output.rs:61-154 | Over every run the sinks' bytes followed by what is pending are exactly the bytes given, in order, if and only if no event was one that loses bytes |
| TerminalOutput.RunConserves | src-tauri/src/terminal_output.rs:61-154 | Every byte given is pending, delivered or dropped, once and in order, and the bytes dropped are counted event by event from the state before |
| TerminalOutput.AttachedInTimeReceivesAll | src-tauri/src/terminal_output.rs:61-154 | A sink attached before the gate opens and then neither replaced nor itself detached has received everything ever given but what is pending, in order, and no other sink anything; detaches of other sinks may come |
| TerminalOutput.AttachedSinkIsServed | src-tauri/src/terminal_output.rs:61-154 | From any attach until a replacement or its own detach, that sink alone receives in order what was pending and what is given |
| TerminalOutput.AttachedInTimeLosesNothing | src-tauri/src/terminal_output.rs:61-154 | When sinks replace each other but the stream is never left without one, they receive everything together |
| TerminalOutput.RunKeepsShape | src-tauri/src/terminal_output.rs:61-154 | In every reachable state the buffer is below its bound, and bytes pending behind an open gate have a sink and exactly one timer due within a window |
| TerminalOutput.DueTimerDrains | src-tauri/src/terminal_output.rs:82-93 | After one window the timer empties the stream to its sink |
| TerminalOutput.GateOpensOnce | src-tauri/src/terminal_output.rs:127-136 | Nothing is sent while gated, and an open gate stays open |
| TerminalOutput.CloseNeverOvertakes | src-tauri/src/terminal_output.rs:98-143 | A close goes out exactly when due, in one step right behind every byte given before it, with nothing left pending; no other event sends one |
| TerminalOutput.ClosesAreAccountedFor | src-tauri/src/terminal_output.rs:98-143 | Over every run each close given was sent once, is held, was replaced while held, or fell due with no sink attached |
| TerminalHistory.ClosesSayWhatWasGiven | src-tauri/src/terminal_output.rs:98-143 | Over every run each close sent carries the argument of the close it answers: at the opening that of the last one given, later its own |
| TerminalHistory.HeldIsLast | src-tauri/src/terminal_output.rs:98-102 | Behind a shut gate the close held is the last one given |
| TerminalHistory.WhenGateOpens | src-tauri/src/terminal_output.rs:61-69 | The gate opens exactly on release and when a mebibyte is held |
| TerminalHistory.GatedOutputWaits | src-tauri/src/terminal_output.rs:63-69 | Until then output is held and nothing is sent |
| TerminalHistory.FirstOutput | src-tauri/src/terminal_output.rs:47-96 | Without a gate the first output goes out at once, with one it is held |
| TerminalHistory.WhenOutputWaits | src-tauri/src/terminal_output.rs:73-95 | Over every run output that fills no batch waits exactly when its sink was sent some less than a window ago, and then for a timer a window after the latest of these sends; otherwise it goes out at once |
| TerminalHistory.WithTimerSet | src-tauri/src/terminal_output.rs:74-80 | With a timer set output waits for it, unless it fills a batch of 256 KiB, which goes out at once |
| TerminalOutput.RunKeepsRate | src-tauri/src/terminal_output.rs:73-95 | While one sink stays attached, two sends not forced by a full batch, a release or a close are at least a window apart, over every run |
| TerminalOutput.UnpacedSendsAreForced | src-tauri/src/terminal_output.rs:73-143 | The sends outside that rate carry a full batch, or come with the gate opening or a close |
| OutputStreams.OutputStream.Output | src-tauri/src/terminal_output.rs:61-96 | Takes the stream where the proved step takes it: gate, drop, full batch, waiting timer, window, or at once |
| OutputStreams.OutputStream.Fire | src-tauri/src/terminal_output.rs:87-92 | The timer's task: clears its flag and flushes, never early |
| OutputStreams.OutputStream.Closed | src-tauri/src/terminal_output.rs:98-105 | Held while gated, else sent behind the pending bytes |
| OutputStreams.OutputStream.Release | src-tauri/src/terminal_output.rs:107-109 | Opens the gate |
| OutputStreams.OutputStream.Attach | src-tauri/src/terminal_output.rs:111-115 | Replaces the sink and starts its rate afresh |
| OutputStreams.OutputStream.Detach | src-tauri/src/terminal_output.rs:117-125 | Works only for the attached sink, and says so |
| OutputStreams.OutputStream.Open | src-tauri/src/terminal_output.rs:127-136 | Replays what was held, the held close last; nothing when open already |
| OutputStreams.OutputStream.Finish | src-tauri/src/terminal_output.rs:138-143 | Flushes and then sends the close |
| OutputStreams.OutputStream.Flush | src-tauri/src/terminal_output.rs:145-154 | Empties the buffer into one send, or drops it when there is no sink |
| OutputStreams.TerminalOutputs.Entry | src-tauri/src/terminal_output.rs:178-185 | Makes a stream on first use only; an existing one keeps its gate, and no other session's stream moves |
| OutputStreams.TerminalOutputs.Attach | src-tauri/src/terminal_output.rs:200-202 | Attaches to the session's own stream and moves no other session |
| OutputStreams.TerminalOutputs.Release | src-tauri/src/terminal_output.rs:196-198 | Opens the session's own stream and moves no other session |
| OutputStreams.TerminalOutputs.Detach | src-tauri/src/terminal_output.rs:206-211 | Removes the session only for the sink still attached, so a late detach cannot cut off a newer one |
| OutputStreams.TerminalOutputs.Output | src-tauri/src/terminal_output.rs:217-221 | Reaches only the session's own stream; unknown sessions are ignored |
| OutputStreams.TerminalOutputs.Closed | src-tauri/src/terminal_output.rs:223-227 | Reaches only the session's own stream; unknown sessions are ignored |
| Reaper.KillImplies | src-tauri/src/shell_integration.rs:732-766 | Over every interleaving, a script that ends the session read, in this order, a clock at least the TTL past its stamp, three equal CPU sums five seconds apart, no client, its TTL and its stamp, and from its write to that last reading its stamp stood untouched |
| Reaper.BehaviourKeepsInv | src-tauri/src/shell_integration.rs:732-766 | Every reachable system keeps, for every live script, that its stamp if still there has stood since it was written and that each reading it has made was true when made |
| Reaper.NextKeepsInv | src-tauri/src/shell_integration.rs:732-766 | One step of any script or of the surroundings keeps that |
| Reaper.OnlyLatestWriterPasses | src-tauri/src/shell_integration.rs:734-739 | Of two scripts that both wrote, the earlier one can no longer pass a check of its stamp and exits there |
| Reaper.LostStampStaysLost | src-tauri/src/shell_integration.rs:738-749 | A stamp lost to another script or with the session never comes back |
| Reaper.WhenKillIsClean | src-tauri/src/shell_integration.rs:765-766 | The kill ends a detached session under the script's own TTL and stamp exactly when each of the three is as it was last read |
| Reaper.KillCanMeetAClient | src-tauri/src/shell_integration.rs:765-766 | A run in which a client attaches after the last check and the kill still comes |
| Reaper.DueFits | src-tauri/src/shell_integration.rs:742-748 | The due time fits 64 bits for every accepted clock and TTL |
| Reaper.EveryWrittenTtlIsAccepted | src-tauri/src/shell_integration.rs:781-791 | Whatever TTL is asked for, the written one passes the script's own test and reads back as the clamped value |
| ReaperRounds.WritersLookedFirst | src-tauri/src/shell_integration.rs:744-749 | Over every interleaving a script that has written its stamp had seen the session without a client and then under its TTL, before it wrote |
| ReaperRounds.WhenScriptLeaves | src-tauri/src/shell_integration.rs:732-767 | A command made awake ends the script exactly when there is cause: in every round alike a missing session, a client, another TTL or another stamp, and else an unusable TTL, clock or CPU sum |
| ReaperRounds.OnlyStampAndKill | src-tauri/src/shell_integration.rs:749-766 | A script changes nothing of the session but by writing its stamp and by ending it |
| ReaperRounds.NapsEndInTime | src-tauri/src/shell_integration.rs:750-753 | Over every interleaving a nap ends at the due time or five minutes after the reading it was taken at, whichever comes first |
| ReaperRounds.AcceptedTtlsAreDecimals | src-tauri/src/shell_integration.rs:733 | Exactly the decimal texts of numbers up to 999999999 are accepted as a TTL |
| ReaperRounds.AcceptedClocks | src-tauri/src/shell_integration.rs:742 | Exactly clock readings of at most eleven digits are accepted |
| ReaperProgress.LeftAloneComesToKill | src-tauri/src/shell_integration.rs:729-767 | Whatever other scripts do, a script whose session stays detached, under its TTL and stamp and at a constant CPU sum comes to its kill once it has made the commands ahead of it |
| ReaperProgress.KillsInTime | src-tauri/src/shell_integration.rs:747-766 | A script left alone that is run whenever it is awake comes to its kill no later than ten seconds after its due time |
| ReaperProgress.AlwaysInTime | src-tauri/src/shell_integration.rs:747-766 | At no moment before has the clock passed the due time by more than its samples account for |
| ReaperProgress.AlwaysNearer | src-tauri/src/shell_integration.rs:729-767 | Over every behaviour that leaves a script alone the commands it made and those ahead never exceed those ahead at first |
| ReaperProgress.CommandBringsNearer | src-tauri/src/shell_integration.rs:729-767 | A command made awake and undisturbed keeps the script going and leaves strictly fewer ahead |
| ReaperProgress.FreshIsOnCourse | src-tauri/src/shell_integration.rs:729-767 | A script just started has twenty commands ahead and five more for every five minutes of its TTL |
| IdleCheck.VoltiusIdle | src-tauri/src/shell_integration.rs:670-706 | Ends on every table, cyclic ones included; succeeds exactly when everything reachable from the panes is known, not running, and a pass-through program or an allowed shell; then prints each reachable shell once |
| IdleCheck.VoltiusQuiet | src-tauri/src/shell_integration.rs:707-717 | Gives a sum exactly when the table is idle and every reachable shell can still be read, and it is the sum over those shells, each once |
| IdleCheck.SumsAdd | src-tauri/src/shell_integration.rs:709-715 | The sum counts each process once, in any order |
| IdleCheck.CommandShellsHangFromPanes | src-tauri/src/shell_integration.rs:686-702 | In an idle table every shell that was given a command hangs from a pane by a chain of such shells only |
| IdleCheck.JudgedByRow | src-tauri/src/shell_integration.rs:690-699 | The walk's test of one row and its flag decides exactly whether the process is harmless |
| IdleCheck.FlagTells | src-tauri/src/shell_integration.rs:686-702 | The flag carried by the queue says exactly whether the process is a pane or the child of a shell given a command, also for processes queued more than once |
| IdleCheck.ClosedHoldsReach | src-tauri/src/shell_integration.rs:686-702 | A set that holds the panes and all children of its members holds everything reachable |
| IdleCheck.Tabulate | src-tauri/src/shell_integration.rs:683-684 | The arrays hold each process's line and exactly its children; a malformed line is noticed |
| IdleCheck.ClassifyShell | src-tauri/src/shell_integration.rs:675-682 | What it finds is what the arguments say, and they say nothing else |
| IdleCheck.KindIsSaid | src-tauri/src/shell_integration.rs:675-682 | Reading the arguments one by one finds exactly what they say: they split into words that tell nothing and file options with their files, and the first word behind decides |
| IdleCheck.CommonShells | src-tauri/src/shell_integration.rs:675-682 | Container shells with a start-up file are interactive; `-c`, `-lc`, `-s` and a script behind a start-up file are what they are |
| IdleCheck.OtherOptions | src-tauri/src/shell_integration.rs:678-680 | Options with a plus tell nothing; `--command...` says command |
| IdleCheck.GroupsBySplitting | src-tauri/src/shell_integration.rs:679-680 | A flag counts in a group of short options only before any further dash |
| IdleCheck.KnownPrograms | src-tauri/src/shell_integration.rs:674 | The programs taken for shells, and those passed through |
| IdleCheck.ProgramDropsOneDash | src-tauri/src/shell_integration.rs:685 | A login shell's name is read without its dash |
| IdleCheck.IdleTablesAreUsable | src-tauri/src/shell_integration.rs:684-689 | No table is idle without panes, without process 1 or with a malformed line |
| PrintfEscape.RoundTrip | src-tauri/src/shell_integration.rs:968-981 | As a printf format the escaped text stands for the script, for every script |
| PrintfEscape.WhenPrintfReadsBack | src-tauri/src/shell_integration.rs:970-981 | As printf's argument it prints the script exactly when the script does not look like options |
| PrintfEscape.SurvivesBothQuotes | src-tauri/src/shell_integration.rs:968-981 | The escaped text reads back as itself from between single and from between double quotes |
| PrintfEscape.EscapedIsTame | src-tauri/src/shell_integration.rs:968-981 | No quote, dollar, backquote, percent, exclamation mark or newline is left, and no backslash that would escape what follows in double quotes |
| PrintfEscape.NestedPeels | src-tauri/src/shell_integration.rs:491-493 | However deep payloads are bound inside payloads, peeling level by level gives the original script, if it does not look like options |
| PrintfEscape.UnwrapsToScript | src-tauri/src/shell_integration.rs:964-966 | The wrapped command makes a shell run the script exactly when the script does not look like options |
| PrintfEscape.WrapperIsInert | src-tauri/src/shell_integration.rs:964-966 | A whole wrapped command can stand between double quotes as it is |
| PrintfEscape.AtMostQuadruples | src-tauri/src/shell_integration.rs:970-981 | Escaping never shortens and at most quadruples |
| PrintfEscape.OptionRoundTrip | src-tauri/src/shell_integration.rs:774-791 | A script kept in a multiplexer option survives quoting, storing and showing, as printable ASCII if it was ASCII, and printf prints it back unless it looks like options |
| PrintfEscape.QuotedReadsBack | src-tauri/src/ssh/exec.rs:16-18 | A quoted argument reads back as itself, whatever quotes it holds |
| PrintfEscape.ContainerPayloadReads | src-tauri/src/shell_integration.rs:1012-1024 | The container command's argument survives its single quotes and evaluates the wrapper, unless that looks like options |
| PrintfEscape.Escape | src-tauri/src/shell_integration.rs:970-981 | The loop yields the text all of the above is proved about |
| PrintfEscape.PlainIsTheList | src-tauri/src/shell_integration.rs:974 | The characters left alone are those the encoder lists |
| PfStates.AnswerIsPublishedIffUntouched | src/hooks/usePfStates.ts:25-32 | Over every run an answer is published exactly when its session is tracked and no event or drop has touched it since the request |
| PfStates.WhenNewerAnswerStands | src/hooks/usePfStates.ts:27-34 | A published answer is safe from answers to earlier requests, over every run from then on, exactly when none for its session is still under way whose version stands |
| PfStates.OlderAnswerCanReturn | src/hooks/usePfStates.ts:42-48 | A run in which the answer requested before a reconnect replaces the one requested at it |
| PfStates.ReconnectRequests | src/hooks/usePfStates.ts:43-48 | A reconnect of a tracked session always requests anew, with or without a state |
| PfStates.TrackRequests | src/hooks/usePfStates.ts:51-57 | Tracking requests a session once, exactly if it was not tracked and has no state, and counts it as often as it is named |
| PfStates.RunKeepsInv | src/hooks/usePfStates.ts:16-71 | Over every run tracker counts are the live registrations, states are kept only while tracked or about to be dropped, and every tracked session has a state, a request that will be taken, or a failed one |
| PfStates.MicrotaskKeeps | src/hooks/usePfStates.ts:65-69 | The drop keeps the invariant: no session is left unserved and no state without a tracker or a queued drop |
| PfStates.MicrotaskForgets | src/hooks/usePfStates.ts:65-69 | The drop forgets exactly the sessions of its cleanup still untracked and outdates their requests and no others |
| PfStates.UntrackKeeps | src/hooks/usePfStates.ts:58-65 | A cleanup's ids stay queued for the drop as long as they may be dropped |
| PfStates.NotifyKeeps | src/hooks/usePfStates.ts:37-41 | A pushed event keeps the invariant |
| PfStates.NotifyOutdates | src/hooks/usePfStates.ts:37-41 | An event outdates every request under way for its session and no other |
| PfStates.UntrackedIsIgnored | src/hooks/usePfStates.ts:37-48 | Events and reconnects of untracked sessions change nothing |
| PfStore.Store.Track | src/hooks/usePfStates.ts:51-57 | Counts every id, and requests exactly what is newly tracked and has no state, as in the proved step |
| PfStore.Store.Untrack | src/hooks/usePfStates.ts:58-65 | Takes one registration back and queues its drop |
| PfStore.Store.RunMicrotask | src/hooks/usePfStates.ts:65-69 | The queued drop, as in the proved step |
| PfStore.Store.Answer | src/hooks/usePfStates.ts:27-30 | Takes or discards an answer as in the proved step |
| PfStore.Store.Fail | src/hooks/usePfStates.ts:31 | A failed request changes no state |
| PfStore.Store.Notify | src/hooks/usePfStates.ts:37-41 | Events of untracked sessions are ignored |
| PfStore.Store.Reconnect | src/hooks/usePfStates.ts:43-48 | A tracked session that connects again is read again |
| PfStore.Store.FetchState | src/hooks/usePfStates.ts:25-27 | A request carries the version it was made under |
| PfStore.Store.Bump | src/hooks/usePfStates.ts:21-23 | Only that session's version grows |
| PendingConflicts.RunKeepsInv | src-tauri/src/known_hosts.rs:35-60 | Over every run no session is both waiting and cancelled early, at most 32 distinct sessions are cancelled early, and a waiting prompt has been told nothing |
| PendingConflicts.EarlyCancelStands | src-tauri/src/known_hosts.rs:42-57 | An early cancel stands while fewer than 32 new ids are cancelled behind it, whatever else happens |
| PendingConflicts.EarlyCancelLimit | src-tauri/src/recent_ids.rs:8-16 | Until its own session asks, an early cancel is there all the time exactly while fewer than 32 newer ones are, whatever other sessions do and however often it is repeated |
| PendingConflicts.CancelRefusesTheNextPromptOnly | src-tauri/src/known_hosts.rs:41-60 | It refuses exactly the next prompt of its session |
| PendingConflicts.RepeatDoesNotRenew | src-tauri/src/recent_ids.rs:9-11 | Cancelling again changes nothing, its place included |
| PendingConflicts.ToldOnce | src-tauri/src/known_hosts.rs:35-49 | A prompt is told something at most once |
| PendingConflicts.PromptHears | src-tauri/src/known_hosts.rs:35-60 | A prompt waits until the first operation that names its session, and hears exactly what that says, whatever other sessions do |
| RecentIds.TakenRemovesOne | src-tauri/src/recent_ids.rs:22-27 | Taking an id removes it and nothing else |
| RecentIds.Recent.Insert | src-tauri/src/recent_ids.rs:8-16 | Repeats change nothing, a full queue drops its oldest |
| RecentIds.Recent.Contains | src-tauri/src/recent_ids.rs:18-20 | True exactly for the ids held |
| RecentIds.Recent.Take | src-tauri/src/recent_ids.rs:22-27 | Removes the id if held, and says whether it was |
| PendingConflicts.Pending.Resolve | src-tauri/src/known_hosts.rs:35-39 | Tells the waiting prompt, if any |
| PendingConflicts.Pending.Cancel | src-tauri/src/known_hosts.rs:42-49 | Aborts the waiting prompt, or refuses the next one in advance |
| PendingConflicts.Pending.Wait | src-tauri/src/known_hosts.rs:52-60 | No prompt exactly when an early cancel of the session is there |
| PendingConflicts.Pending.Receive | src-tauri/src/known_hosts.rs:260-273 | What a shown prompt hears is what the table recorded for it |
| KnownHosts.StatusIsMembership | src-tauri/src/known_hosts.rs:217-231 | Known, unknown or changed by membership in the live set, its emptiness, or neither, with the live entries listed |
| KnownHosts.Store.Check | src-tauri/src/known_hosts.rs:217-231 | Computes that status |
| KnownHosts.Store.VerifyOrPrompt | src-tauri/src/known_hosts.rs:234-274 | Ok means the key is trusted now, an error means nothing changed; which of the two is decided exactly by the live set, the early cancel and what the prompt hears from the operations made while it waits, and the table of prompts ends where those take it |
| KnownHosts.RunFollowsSetMachine | src-tauri/src/known_hosts.rs:234-370 | Over every run of requests the keys of all hosts move as a machine on sets of keys says, one host a step, and no entry vanishes, changes its key or loses its tombstone |
| KnownHosts.OneKeyEach | src-tauri/src/known_hosts.rs:326-359 | Over every run without a request to add a key no host comes to a second one |
| KnownHosts.EntriesSayWhatWasAsked | src-tauri/src/known_hosts.rs:123-137 | A request adds at most one entry, made of what it names, and touches others only by a tombstone of its own time |
| KnownHosts.LiveInOrder | src-tauri/src/known_hosts.rs:139-141 | The live entries of a host keep the order of the list |
| KnownHosts.Store.Trust | src-tauri/src/known_hosts.rs:331-359 | Refused exactly when other keys are live and replacing was not asked for; otherwise exactly the one key is trusted |
| KnownHosts.Store.ReplaceAll | src-tauri/src/known_hosts.rs:305-324 | Exactly the new key is trusted, no other host is touched, no entry vanishes and no tombstone is cleared |
| KnownHosts.Store.AddNew | src-tauri/src/known_hosts.rs:277-289 | The host's live set gains exactly that key, others keep theirs |
| KnownHosts.Store.AddOnce | src-tauri/src/known_hosts.rs:292-302 | The same, without a second entry for a live key |
| KnownHosts.Store.Delete | src-tauri/src/known_hosts.rs:362-370 | Leaves a tombstone on the first entry with the id and touches no other; the host loses that key unless another live entry holds it, and no other host changes |
| KnownHosts.Store.EntriesFor | src-tauri/src/known_hosts.rs:384-392 | The host's live entries in order |
| Contributions.AnswersAreFresh | src/mcp/register.ts:68-90 | Over every run whatever a client is answered with equals a list built afresh, and its names, those of the built-in tools included, are distinct |
| Contributions.OfferedNamesDistinct | src/mcp/consumer.ts:234-267 | Built-in names lack the mark every contributed name has, so the list offered has distinct names |
| Contributions.OfferedExactly | src/mcp/consumer.ts:335-337 | Offered are the built-in tools and all tools of every plugin that is not hidden |
| Contributions.OwnToolsFirst | src/mcp/consumer.ts:266 | The built-in tools come first |
| Contributions.ListedInOrder | src/mcp/contributions.ts:115-117 | Tools are listed plugin by plugin in order, and hiding some keeps it |
| Contributions.ClientsKeepTheirName | src/mcp/register.ts:68-90 | Over every run a client goes by the last name it gave since it closed |
| Contributions.StepKeepsCurrent | src/mcp/contributions.ts:36-113 | Every event keeps the names distinct, namespaces with one plugin, and lists cached under the present version current |
| Contributions.RegisteringKeepsNames | src/mcp/contributions.ts:56-109 | An accepted set clashes with nothing registered |
| Contributions.RegisteredAsContributed | src/mcp/contributions.ts:58-108 | A registered set is the contributed one, tool by tool, under full names, taken for changing things unless it says not; no other plugin moves |
| Contributions.UsableSets | src/mcp/contributions.ts:66-99 | A set is usable exactly when its names are distinct words, its descriptions show something and its schemas can be used |
| Contributions.NamespaceDropsPrefix | src/mcp/contributions.ts:22-24 | The namespace is the id without its prefix |
| Contributions.ClearingKeepsNames | src/mcp/contributions.ts:111-113 | Clearing a plugin removes it and disturbs no other |
| Contributions.WithoutKeepsOrder | src/mcp/contributions.ts:111-113 | The plugins that stay keep their order |
| Contributions.ListedNamesDistinct | src/mcp/contributions.ts:115-117 | All names of the whole listing are distinct |
| Contributions.SpellingsCollide | src/mcp/contributions.ts:75-104 | Two namespaces can spell one full name, and the second plugin is refused |
| McpTools.Server.RegisterContributions | src/mcp/contributions.ts:56-109 | Accepted exactly when the namespace is free, every tool is usable and no name is another's; a refusal says why and changes nothing |
| McpTools.Server.ClearContributions | src/mcp/contributions.ts:111-113 | Moves the version exactly when the plugin was registered |
| McpTools.Server.SetPluginExposed | src/stores/mcpContributionStore.ts:35-40 | A change of what clients may see moves the version too |
| McpTools.Server.ListContributions | src/mcp/contributions.ts:115-117 | Every plugin's tools in the order plugins first registered |
| McpTools.Server.BuildTools | src/mcp/contributions.ts:66-99 | The whole set, or the fault of its first bad tool |
| McpTools.Server.NamespaceOwner | src/mcp/contributions.ts:60-64 | Another plugin with the same namespace, if there is one |
| McpTools.Server.FindClash | src/mcp/contributions.ts:101-104 | A name another plugin bears, if there is one |
| McpTools.Server.CheckContributions | src/mcp/contributions.ts:60-104 | Accepted exactly under the documented condition, else the error of the first check that fails, for the first tool it fails on |
| McpTools.Server.BuildMcpTools | src/mcp/consumer.ts:257-266 | The built-in tools, then the exposed plugins' tools of the present registry |
| McpTools.Server.BuildContributedTools | src/mcp/consumer.ts:335-337 | The exposed plugins' tools of the present registry, in listing order |
| McpTools.Server.StateFor | src/mcp/register.ts:68-90 | The list returned is always the one that would be built now |
| McpTools.Server.CloseClient | src/mcp/register.ts:97-101 | Forgets that client only |
| HostModules.ResolveHostSpecifiers | src/plugins/hostModules.ts:108-130 | A normal return is the source with exactly the found specifiers replaced; it throws exactly when some import's specifier cannot be read, or is unknown and does not start with `./` or `../`, for the first such import's reason |
| HostModules.UnknownSpecifiersMustBeDotted | src/plugins/hostModules.ts:119-127 | A specifier the lookup does not find is accepted exactly when it is `./` or `../` and anything behind |
| HostModules.RemoteSpecifiersAreRefused | src/plugins/hostModules.ts:99-127 | Bare names, absolute paths, protocol-relative addresses and whole URLs are refused |
| HostModules.HostImportsAreRewritten | src/plugins/hostModules.ts:119-123 | Every import of a host specifier, static or dynamic, is rewritten over its whole range |
| HostModules.OnlyFoundImportsAreRewritten | src/plugins/hostModules.ts:112-123 | Nothing is rewritten but imports whose specifier the lookup finds |
| HostModules.WovenIsReplacement | src/plugins/hostModules.ts:111-129 | Weaving forward equals replacing backward, last edit first, so all other text is untouched |
| HostModules.RewrittenImportsReadBack | src/plugins/hostModules.ts:87-123 | Reading a rewritten import back at its shifted offset gives the host's URL |
| HostModules.RewrittenDynamicsAreLiterals | src/plugins/hostModules.ts:121 | A rewritten dynamic import is one string literal again |
| HostModules.TextAtShiftedOffset | src/plugins/hostModules.ts:121-129 | Each replacement stands at its own offset moved by the lengths replaced before it |
| HostModules.WhenImportsEscape | src/plugins/hostModules.ts:87-127 | Everything the documented rule allows is accepted; what is accepted against it is exactly an inherited name, or a dynamic import of anything but one literal that reads as a host or dotted specifier from its first quote to its last |
| HostModules.LiteralsEscapeByInheritedNamesOnly | src/plugins/hostModules.ts:87-127 | Static imports and dynamic imports of one literal always give a specifier and are judged as documented, inherited names excepted |
| HostModules.AnExpressionEscapes | src/plugins/hostModules.ts:91-95 | `import("./" && "x")` is accepted |
| HostModules.AnInheritedNameEscapes | src/plugins/hostModules.ts:119-120 | `constructor` is one, and what it is replaced by |
| Bundles.OrderDoesNotMatter | src/i18n/bundles.ts:28-45 | A locale whose fallbacks end gets its chain layered, in whatever order locales are taken and whatever was remembered |
| Bundles.ResolveIsLayering | src/i18n/bundles.ts:28-43 | The memoised recursion, from any sound memory and any point of the walk, returns the whole chain's layering |
| Bundles.NearestLocaleWins | src/i18n/bundles.ts:39 | In the layered bundle each section is that of the nearest locale that has it |
| Bundles.LastFileWins | src/i18n/bundles.ts:16-22 | Among a locale's files the last one with a key decides it |
| Bundles.MergedExactly | src/i18n/bundles.ts:16-22 | The merged files hold a locale, section and key exactly when some file does |
| Bundles.WhenFallbackCounts | src/i18n/bundles.ts:8-11 | A declared fallback counts exactly if it is named, another locale, and there |
| Bundles.ChainsDoNotReturn | src/i18n/bundles.ts:34-36 | A locale with a whole chain never comes round to itself, so the guard against rings never cuts it short |
| Bundles.EndsOrTurns | src/i18n/bundles.ts:28-46 | Every fallback walk ends or comes into a ring |
| Bundles.RingIsWalkedToItsEntry | src/i18n/bundles.ts:28-46 | Such a locale gets the layering of the walk from it to the member at which the order enters the ring, a whole turn when its walk meets that member first |
| Bundles.WhenRingOrderMatters | src/i18n/bundles.ts:28-46 | For a locale in a ring or leading into one: the same in every order exactly when the locale, its way in and the first two members have every section of the ring |
| Bundles.WhenOrderMatters | src/i18n/bundles.ts:28-46 | Any locale's bundle is the same in every order exactly when its fallbacks end or the ring they lead into has no section beyond those met by the first two members |
| Bundles.PairNeverDepends | src/i18n/bundles.ts:28-46 | Two locales that fall back on each other have the same bundles in every order |
| Bundles.RingDependsOnOrder | src/i18n/bundles.ts:34-42 | In a ring of three whose members have strings of their own the outcome depends on the order |
| Bundles.Assembler.Resolve | src/i18n/bundles.ts:28-43 | Ends on every fallback relation, rings included, and restores the set of locales under way |
| Bundles.AssembleLocales | src/i18n/bundles.ts:13-46 | Every locale is there, with the bundle the resolver gives it in the order taken |
| InputUndo.RunKeepsInv | src/hooks/useInputUndo.ts:25-84 | Over every run a history has a present and both stacks together hold at most 100; unless the program sets a value, the last snapshot is what the field shows |
| InputUndo.LineIsConserved | src/hooks/useInputUndo.ts:70-83 | Undo and redo move along one line of snapshots, and the limit drops none of them |
| InputUndo.RedosRestore | src/hooks/useInputUndo.ts:70-83 | In every field, one without a history included, as many redos as undos restore both stacks and the value exactly when the field shows its last snapshot and the undos did not run into the start or nothing was ahead, or when nothing could move at all |
| InputUndo.WhenEditsUndo | src/hooks/useInputUndo.ts:36-84 | So many undos of an edit bring back the replaced text exactly when there is a history and the snapshot they come to is that text |
| InputUndo.EditsThatCanBeUndone | src/hooks/useInputUndo.ts:36-84 | An edit can be undone at all exactly when the replaced text is among the snapshots the edit leaves behind its own |
| InputUndo.FirstEditCannotBeUndone | src/hooks/useInputUndo.ts:25-49 | No number of undos brings back the text before the first edit |
| InputUndo.BurstsAreTimed | src/hooks/useInputUndo.ts:44-51 | Over every run a snapshot is started exactly by edits more than half a second after the one that started the last |
| InputUndo.EditsMoveStacks | src/hooks/useInputUndo.ts:44-51 | What an edit leaves in both stacks |
| InputUndo.KeysMakeHistory | src/hooks/useInputUndo.ts:65-66 | Undo and redo make a history of what the field shows if there is none |
| InputUndo.TextField.OnInput | src/hooks/useInputUndo.ts:36-54 | A new snapshot after a quiet spell, else the last one overwritten |
| InputUndo.TextField.OnUndo | src/hooks/useInputUndo.ts:76-83 | Moves back as the proved step does |
| InputUndo.TextField.OnRedo | src/hooks/useInputUndo.ts:70-75 | Moves on as the proved step does |
| AllConnections.SearchAgreesWithMap | src/hooks/useAllConnections.ts:12-35 | The backward search and the last-write-wins map agree on every id, whatever the lists share |
| AllConnections.MapHoldsWinners | src/hooks/useAllConnections.ts:20-22 | The map holds exactly the entry of the last team that has the id, or else the personal one |
| AllConnections.SearchFindsWinners | src/hooks/useAllConnections.ts:29-33 | So does the backward search when ids are unique within each list |
| AllConnections.PutKeepsLast | src/hooks/useAllConnections.ts:17-19 | Filling the map from a list leaves each id's last entry |
| AllConnections.ConnectionStore.UseAllConnections | src/hooks/useAllConnections.ts:12-22 | Holds for each id the entry of the last team that has it, or else the personal one |
| AllConnections.ConnectionStore.UseConnection | src/hooks/useAllConnections.ts:25-35 | Finds what the search finds; no id, or an empty one, finds nothing |

## Left out

- The keychain's mutex: operations on one store are modelled one at a time, as the lock makes them.
- Several processes on one keychain: a process's cache is never told of another's writes; the model has one process at a time.
- Two JSON texts of the same bundle are not told apart.
- Modifiers given for a service that is not bundled are handed to the store below and not modelled further.
- Timers of a stream that has left the table: a stream's own timers are modelled, the table's detached ones are not.
- Reaper.KillImplies: says what the readings saw and that the stamp stood between them, not that no client came and went between two readings; the script cannot see that.
- The reaper's session-name test, and the parsing of `ps` and of `/proc` files into fields.
- The shell wrapper texts and the multiplexer version gates: strings for other programs, any script to the encoder.
- The shell and printf are modelled on the quoting and escapes the payloads use; parameters, globs and other words are not.
- IdleCheck.VoltiusIdle: requires process ids to be distinct, as a process listing has them.
- The React side of the port-forwarding hooks, and their notification of subscribers.
- `KnownHostsStore::load`, `copy_to_vault`, `move_vault`, names and vector clocks of entries, and the file they are saved to.
- KnownHosts.Store.VerifyOrPrompt: other calls on the trust store while a prompt waits are not interleaved; those on the table of prompts are.
- Session ownership between MCP clients (`ownedSessionsFor`) and the tools' own execution.
- The built-in tools are any list of distinct names without a double underscore; what they do is not modelled.
- McpTools.Server.NamespaceOwner: takes plugin ids as not empty, as the application makes them; an owner with an empty id would be overlooked.
- Escapes inside an import specifier are left as they are written, as the code leaves them.
- HostModules.ResolveHostSpecifiers: takes the lexer's ranges as ordered and apart, and knows static, dynamic and meta imports only.
- `localeOf` path splitting and the loading of locale files over the network.
- Which events reach the text-field handlers (tag and type tests, suppressed events): only those that act are modelled.
- The order in which `useAllConnections` lists its entries.
