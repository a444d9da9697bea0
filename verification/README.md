# Verified models of Busibox components

Dafny models of the logic of nine Busibox source files, with proofs of what each piece is for. `dafny verify dfyconfig.toml`
verifies the whole project. There is one module per component:

- `AppManager` is the process supervisor of the core apps as a timed state machine: crashes, restart timers, stop windows,
  mode switches with builds that can fail, the saved modes, the shared package watcher. Time is in milliseconds; control
  operations come one at a time, everything else at any time. `AppModes`
  says what an operation does to the modes, `AppCrashes` that crashes are answered, `AppWatcher` when the watcher follows.
  `AppHandlers` has the manager's handlers, which update its records in place, each proved to be a step of the machine.
- `ThinkBlocks`, `ToolCalls` and `SchemaTypes` are three parts of the Outlines server: the removal of `<think>` blocks, the
  string-aware brace matcher with its extraction loop, and the translation of JSON Schemas to types.
- `Backfill` is the repair of misfiled documents: the Postgres rows (phase 0), then the Milvus partitions (phase 1).
- `StreamMerge` and `HealthLoop` are two parts of the host agent: the merge of a process's two output streams, as a machine
  over single characters with bounded pipes, and the supervisor loop of the MLX servers.
- `VaultMerge` is the vault update: flatten, update, unflatten. `DictObject` rebuilds the nested dictionaries in place.
- `HealthBatch` is the batched Proxmox health check next to the individual one.
- `ProfileStore` and `StateFile` are the CLI's profile ids with their migration, and the managed lines of a state file.
- `Pop3Inbox` is the POP3 client that remembers what it has seen.
- `ShellQuote` is the single-quoting of remote commands, read back by a lexer for sections 2.2.1, 2.2.2 and 2.3 of the
  POSIX.1-2017 Shell Command Language.
- `Strings` has what the others share about text: searching, trimming, subsequences.

Where Python, JavaScript or Rust iterate over an unordered map, the methods pick the next key arbitrarily, so their
contracts hold for every order. External answers (what a probe prints, what is typed at a prompt, whether a write succeeds)
are parameters.

## Where the code keeps less than it says

Each of these is a theorem; the table says under which condition the promise is kept.

- The apps manager does not check `CORE_APPS_MODE`: an invalid default is saved and not recovered
  (`RestartRecoversModes`).
- The package watcher can end up running twice, or with no app in dev: a mode change looks at it while an old one,
  already told to stop, is still alive, or while a restart is outstanding (`MatchedExactly`, `TwoWatchers`).
- The comment on the POP3 client promises that each message is processed exactly once even across restarts. For listings of
  unique ids that holds if and only if every restart finds in the file exactly the ids of the messages processed by then
  (`ProcessedExactlyOnce`). A failed save before a restart makes messages come again (`UnsavedIsReturnedAgain`); as ids are
  saved before their messages are handed on, a restart in between loses messages (`WaitingIsLost`).
- A line longer than the stream reader's limit kills its drainer, and the merge then never finishes (`FinishesExactly`).
- `write_profile_state` is not idempotent for a kept line that still ends in a carriage return (`WritingTwice`).
- The profile migration loses a profile when two old ids get the same new one (`MigrationIsOneForOne`,
  `SameTargetLosesAProfile`).
- The vault update can lose a value when a key of the example is a prefix of a key of the vault
  (`UpdateIsExact`, `CollisionLosesAValue`), keys that start with a dot do not survive (`FlattenUnflatten`), and every
  empty sub-dictionary of the vault is dropped by a save (`SubDictionariesKept`).
- A required name that is not among a schema's properties is dropped (`RequiredMustBeDeclared`), and choices with equal
  string forms are merged (`EnumIsExact`).
- A schema without a type is taken for one of strings (`UntypedIsNarrowed`).
- The fallback of the think-block removal can assemble a tag at a seam (`ResultHasTag`, `FallbackLeavesATag`).
- Output before the first marker of a health batch shifts all results (`AgreesWithoutNoise`, `NoiseShiftsResults`).
- A hang restart whose stop raises leaves more than one failure recorded (`MoreThanOneFailure`, `TwoRecorded`).

That the manager never has two processes of one app (`OneProcessPerApp`) rests on one assumption about the event loop: the
timer armed after SIGKILL does not run before a restart timer that was due before it. Timers may be late by any amount and
otherwise overtake each other. Node's documentation promises no order; without any, the margin is 3500 ms (`MarginIsExact`).

## Model

| member | source | states |
|---|---|---|
| AppManager.StepKeepsApps | provision/docker/app-manager.js:261-341 | one event of any kind keeps every app's invariant (one process, the recorded one, in the recorded mode; at most one restart timer, inside its stop window) if the timer armed after SIGKILL does not overtake a restart timer due before it, however late all of them are, or if restart timers are less than 3500 ms late in any order |
| AppManager.ScriptBalanced | provision/docker/app-manager.js:511-746 | every control operation stops each app it starts, once, before starting it |
| AppManager.ScriptCloses | provision/docker/app-manager.js:511-746 | every recorded mode change is followed by a save of the modes and a look at the watcher |
| AppManager.StepKeepsScript | provision/docker/app-manager.js:311-341 | one event keeps the operation in hand in step with which apps are up, being stopped, or down |
| AppManager.StepKeepsBooks | provision/docker/app-manager.js:135-145 | one event keeps: with no save to come the file equals the recorded modes |
| AppManager.RunKeepsInv | provision/docker/app-manager.js:215-341 | under the same assumption the whole invariant holds after every run of events, requests at any time between operations and watcher exits at any time included |
| AppManager.OneProcessPerApp | provision/docker/app-manager.js:261-277 | in every reachable state an app has at most one live process, the one reported as running, launched in the recorded mode, however late timers run, as long as the one armed after SIGKILL does not overtake a restart timer due before it |
| AppManager.RestartTimerIsSafe | provision/docker/app-manager.js:267-276 | a restart timer left by a crash is the only one, nothing is alive while it is pending, and it fires while `stopping` suppresses it or before a replacement is started, under the same assumption |
| AppManager.RunKeepsPlan | provision/docker/app-manager.js:311-341 | whatever timers do, every run keeps the operation in hand, the saved file and `stopping` in step |
| AppManager.NothingLeftBehind | provision/docker/app-manager.js:501-640 | whatever timers do, with no operation in flight every app is up, none is being stopped, and the saved modes are the recorded ones, failed builds included |
| AppManager.MarginIsExact | provision/docker/app-manager.js:261-341 | were timers free to overtake each other, single processes would be guaranteed for all runs if and only if restart timers are less than 3500 ms late |
| AppManager.RecoversModes | provision/docker/app-manager.js:99-133 | a restart recovers the saved modes under every environment if and only if all saved modes are valid |
| AppManager.StepKeepsModes | provision/docker/app-manager.js:501-746 | one event keeps recorded modes, and those an operation will record, valid |
| AppManager.RunKeepsModes | provision/docker/app-manager.js:501-746 | so does every run |
| AppManager.RestartRecoversModes | provision/docker/app-manager.js:99-145 | whatever timers do, after every run with no operation in flight a new manager reading the saved file starts from exactly the recorded modes under every environment, if and only if these are valid; they are if the first modes were |
| AppManager.StartsIn | provision/docker/app-manager.js:99-133 | what a new manager starts each app in: the saved mode if it is dev or prod, else the overriding one if it is, else the default, dev if that is empty |
| AppManager.Override | provision/docker/app-manager.js:109-113 | known apps take valid modes from an override map, all others keep theirs |
| AppManager.GetInitialModes | provision/docker/app-manager.js:99-133 | saved modes win over environment overrides, and those over the default |
| AppModes.OperationSetsModes | provision/docker/app-manager.js:501-746 | over every run that accepts a request and comes back to having nothing in hand: exactly the apps the request is about are started, once each, and every app ends, and is saved, in the mode asked for (its old one unless the request names another), or in dev if that is prod and its build failed |
| AppCrashes.CrashesAreAnswered | provision/docker/app-manager.js:261-277 | in every reachable state an app in dev that no operation is dealing with runs or has a single restart timer due within two seconds, if all ran at first |
| AppCrashes.RestartsAreCrashes | provision/docker/app-manager.js:263-266 | the reported restarts are the deaths that no stop asked for |
| AppWatcher.UpdateIsRight | provision/docker/app-manager.js:173-213 | a look at the watcher leaves it right (the one watcher, or one restart to come, with a dev app; none but those told to go without) if and only if its moment is good |
| AppWatcher.LookIsExact | provision/docker/app-manager.js:184-213 | after a look, however exits and restarts go on by themselves, the watcher matches the modes whenever nothing is outstanding, if and only if the moment was good |
| AppWatcher.WatcherMatchesModes | provision/docker/app-manager.js:166-213 | over every run whose looks come at good moments: with no operation in flight and nothing outstanding exactly one watcher runs if some app is in dev, and none otherwise |
| AppWatcher.MatchedExactly | provision/docker/app-manager.js:166-213 | over every run, whatever timers do, the watcher stays matched in all states with no operation in flight if and only if every look came at a good moment |
| AppWatcher.TwoWatchers | provision/docker/app-manager.js:173-213 | a run of two mode changes, there and back before the old watcher is dead, that ends with two live watchers and nothing outstanding |
| AppHandlers.Manager.HasAnyDevApp | provision/docker/app-manager.js:166-171 | true exactly when some app of the tracked system is in dev |
| AppHandlers.Manager.SaveModes | provision/docker/app-manager.js:135-145 | the file follows the system through its save step |
| AppHandlers.Manager.OnExit | provision/docker/app-manager.js:261-276 | the records follow the system through the exit of a process, and a timer is armed exactly when that step arms one |
| AppHandlers.Manager.BeginStop | provision/docker/app-manager.js:311-316 | the records follow the system through the start of a stop, which waits exactly when the step ends in waiting |
| AppHandlers.Manager.ClearStopped | provision/docker/app-manager.js:321-336 | the records follow the system through the end of the wait after SIGKILL |
| AppHandlers.Manager.FinishStop | provision/docker/app-manager.js:338-340 | the records follow the system through the step in which the port is free and `stopApp` returns |
| AppHandlers.Manager.OnRestartTimer | provision/docker/app-manager.js:267-275 | the records follow the system through a fired restart timer, suppressed or not, with or without a process |
| AppHandlers.Manager.Relaunch | provision/docker/app-manager.js:520-596 | the records follow the system through every relaunch: a mode change, a restart, a rebuild, a failed build; what modes come of it is `AppModes.OperationSetsModes` |
| AppHandlers.Manager.UpdateAppLibWatcher | provision/docker/app-manager.js:205-213 | `appLibProc` follows the system through a look at the watcher, and SIGTERM is sent exactly to a running watcher with no dev app |
| AppHandlers.Manager.OnWatcherExit | provision/docker/app-manager.js:193-201 | `appLibProc` follows the system through a watcher's exit, and a restart is armed exactly when that step arms one |
| AppHandlers.Manager.OnWatcherRestart | provision/docker/app-manager.js:196 | `appLibProc` follows the system through a watcher's restart |
| ThinkBlocks.RemoveBlocks | config/mlx-outlines-server/server.py:501-511 | the loop computes the recursive removal and terminates on every text |
| ThinkBlocks.StripThinkBlocks | config/mlx-outlines-server/server.py:497-516 | the function computes the removal with its fallback |
| ThinkBlocks.RemoveLeavesNoOpen | config/mlx-outlines-server/server.py:501-511 | no opening tag is left, not even one that a removal put together |
| ThinkBlocks.RemoveDeletesOnly | config/mlx-outlines-server/server.py:501-511 | the result is a subsequence of the text |
| ThinkBlocks.MainPath | config/mlx-outlines-server/server.py:497-514 | a result of the main path has no tag, is a subsequence of the input and is a fixed point |
| ThinkBlocks.BlocksVanish | config/mlx-outlines-server/server.py:497-514 | plain segments and well-formed blocks reduce to the trimmed concatenation of the plain segments |
| ThinkBlocks.UnterminatedTakesAll | config/mlx-outlines-server/server.py:506-510 | an unterminated block at the front leaves nothing |
| ThinkBlocks.UnterminatedKeepsText | config/mlx-outlines-server/server.py:501-514 | before an unterminated block plain segments stay, trimmed, and well-formed blocks disappear |
| ThinkBlocks.AnswerIsKept | config/mlx-outlines-server/server.py:506-514 | an answer before thinking that does not end is returned without the thinking |
| ThinkBlocks.ThinkingIsKept | config/mlx-outlines-server/server.py:515-516 | where there is nothing but thinking, ended or not, the thinking is returned without its tags |
| ThinkBlocks.ResultHasTag | config/mlx-outlines-server/server.py:497-516 | the result has an opening tag if and only if the main path leaves nothing and the text, cut at its opening tags, or what erasing them leaves, cut at its closing tags, joins into an opening tag across a seam |
| ThinkBlocks.FallbackLeavesATag | config/mlx-outlines-server/server.py:515-516 | a text whose result is an opening tag |
| ToolCalls.StopsAtClosingBrace | config/mlx-outlines-server/server.py:595-618 | for every JSON object printed by RFC 8259 sections 4 and 7, and any text after it, the matcher stops at exactly that object's closing brace |
| ToolCalls.ValueIsNeutral | config/mlx-outlines-server/server.py:599-618 | no JSON value, whatever its strings contain, moves the matcher's depth |
| ToolCalls.MatchBrace | config/mlx-outlines-server/server.py:595-620 | the inner loop finds the brace that closes the object, or none |
| ToolCalls.NextPayload | config/mlx-outlines-server/server.py:589-621 | one turn of the outer loop reaches the next tagged payload, strictly further on |
| ToolCalls.StripPayload | config/mlx-outlines-server/server.py:621 | `strip` leaves a payload as it is |
| ToolCalls.ExtractCandidates | config/mlx-outlines-server/server.py:585-628 | the loop collects every payload in order, without those that do not load (see `ToolCalls.LoadedAre`) |
| ToolCalls.ObjectIsBraced | config/mlx-outlines-server/server.py:595-618 | every JSON object is a payload whose first brace the matcher closes with its last character |
| ToolCalls.ExtractsEveryCall | config/mlx-outlines-server/server.py:585-628 | over any text of tagged payloads of that kind the payloads are exactly those, in order, for any tag without a brace that does not overlap itself; after them may come text without the tag, or with a tag whose brace is missing or never closed |
| ToolCalls.ExtractsEveryToolCall | config/mlx-outlines-server/server.py:585-628 | so it is at the tag the server looks for |
| ToolCalls.LoadedAre | config/mlx-outlines-server/server.py:622-628 | there is one candidate for each payload that loads, standing where the payload stands among those |
| ToolCalls.AcceptedCallsComeOut | config/mlx-outlines-server/server.py:585-628 | over any text of tagged payloads the candidates are the values of those that load, in order, wherever refused ones stand among them |
| SchemaTypes.BuildEnum | config/mlx-outlines-server/server.py:398-401 | the loop builds the members by string form, later ones winning |
| SchemaTypes.EnumIsExact | config/mlx-outlines-server/server.py:398-401 | the enum accepts exactly the listed choices if and only if distinct choices have distinct string forms |
| SchemaTypes.TranslationIsExact | config/mlx-outlines-server/server.py:392-414 | at any nesting a value is accepted by the generated type exactly when it validates against the schema, null counting as absence in optional fields |
| SchemaTypes.ModelIsExact | config/mlx-outlines-server/server.py:365-389 | the same for the top-level model |
| SchemaTypes.RequiredMustBeDeclared | config/mlx-outlines-server/server.py:377-387 | unless the model accepts nothing, it is exact if and only if every required name is among the properties |
| SchemaTypes.IntegersAreWhole | config/mlx-outlines-server/server.py:357-362 | an integer is a number with nothing after its point |
| SchemaTypes.WithoutDetails | config/mlx-outlines-server/server.py:392-414 | without a type, or with an unknown one, strings are accepted; arrays without items are of strings; objects without properties are any |
| SchemaTypes.UntypedIsNarrowed | config/mlx-outlines-server/server.py:396 | a schema that asks for nothing is taken for one of strings |
| Backfill.RowEffect | scripts/backfill-milvus-shared-partitions.py:347-419 | one document's turn gives its missing target partitions the first records found, empties its personal partition if asked to, and touches no other file |
| Backfill.TurnKeepsOthers | scripts/backfill-milvus-shared-partitions.py:347-419 | a turn leaves every other file's vectors, and what its own turn will do, as they were |
| Backfill.RunEffect | scripts/backfill-milvus-shared-partitions.py:308-419 | the whole run repairs each file as if it were alone, although the partition snapshot goes stale |
| Backfill.EndsWhereItBelongs | scripts/backfill-milvus-shared-partitions.py:308-419 | where each document has its vectors after the run, partition by partition: as before if found nowhere or belonging nowhere; wherever it belongs its own or those found first; none in its owner's personal partition if cleaning is asked for; elsewhere as before |
| Backfill.NothingGoes | scripts/backfill-milvus-shared-partitions.py:393-419 | unless cleaning is asked for, no vector goes, whatever the rows and the snapshot |
| Backfill.EveryTargetServed | scripts/backfill-milvus-shared-partitions.py:370-413 | every document found in a scanned partition ends with vectors in each target partition |
| Backfill.NoFileIsLost | scripts/backfill-milvus-shared-partitions.py:415-419 | no file loses its last copy, even with personal cleanup, and other files keep their vectors |
| Backfill.SecondRunIsIdle | scripts/backfill-milvus-shared-partitions.py:559-568 | a second run with a fresh snapshot changes nothing |
| Backfill.Scan | scripts/backfill-milvus-shared-partitions.py:371-380 | the partitions that hold the file, and the first records found |
| Backfill.Copy | scripts/backfill-milvus-shared-partitions.py:408-413 | each target is created if need be and gets the records; nothing else changes |
| Backfill.Phase1Row | scripts/backfill-milvus-shared-partitions.py:347-419 | one turn of the loop has the specified effect, which is that of `Backfill.EndsWhereItBelongs`, and none in a dry run |
| Backfill.Phase1 | scripts/backfill-milvus-shared-partitions.py:308-427 | the loop over all rows has the specified effect, and none in a dry run |
| Backfill.Collection.EnsurePartition | scripts/backfill-milvus-shared-partitions.py:156-163 | a missing partition is created empty, an existing one is left alone |
| Backfill.DataDb.FixDoc | scripts/backfill-milvus-shared-partitions.py:279-296 | one document becomes shared and gets its library's roles, nothing else changes |
| Backfill.DataDb.FixLibrary | scripts/backfill-milvus-shared-partitions.py:231-298 | one library's stuck documents are fixed if it has role bindings, and counted |
| Backfill.DataDb.Phase0 | scripts/backfill-milvus-shared-partitions.py:186-301 | phase 0 fixes exactly the stuck documents of live, non-personal libraries with role bindings |
| Backfill.OnlyStuckLibrariesMatter | scripts/backfill-milvus-shared-partitions.py:197-218 | looking only at libraries with stuck documents loses nothing |
| Backfill.Phase0Effect | scripts/backfill-milvus-shared-partitions.py:186-298 | phase 0 marks as shared exactly the personal documents of live, non-personal libraries with role bindings, and gives them exactly those roles |
| Backfill.EndToEnd | scripts/backfill-milvus-shared-partitions.py:541-568 | every stuck document of such a library ends shared, with all the library's roles and, if indexed in a scanned partition, with vectors in each role's partition |
| Backfill.OthersKeepTheirRow | scripts/backfill-milvus-shared-partitions.py:197-298 | all other documents keep their visibility and their roles |
| StreamMerge.MessagesAreTheLines | scripts/host-agent/host-agent.py:667-675 | a stream's messages are its lines, right-trimmed, without the blank ones |
| StreamMerge.KeptMeans | scripts/host-agent/host-agent.py:671-672 | a line's message is the line without the whitespace at its end, and a line of whitespace has none |
| StreamMerge.RunKeepsPipes | scripts/host-agent/host-agent.py:658-661 | no pipe ever holds more than its capacity |
| StreamMerge.FitsMeansEveryLine | scripts/host-agent/host-agent.py:668 | a text is readable line by line if and only if no line is over the reader's limit |
| StreamMerge.StepKeepsStream | scripts/host-agent/host-agent.py:665-690 | one step of process, drainers or consumer keeps a stream's books: delivered and still held make up what it wrote |
| StreamMerge.StepKeepsEnds | scripts/host-agent/host-agent.py:676-690 | one step keeps the sentinels counted, and nothing follows the last one |
| StreamMerge.RunKeepsInv | scripts/host-agent/host-agent.py:663-690 | both hold after every interleaving |
| StreamMerge.YieldedInOrder | scripts/host-agent/host-agent.py:667-690 | at any moment the messages yielded for a stream are the first of its messages, in order, each once |
| StreamMerge.LeavingMeansAllDelivered | scripts/host-agent/host-agent.py:684-694 | the consumer leaves its loop only with both streams ended, the queue empty and every message yielded |
| StreamMerge.NeverStuck | scripts/host-agent/host-agent.py:658-690 | with bounded pipes of any capacity no reachable unfinished state is stuck, provided every line fits |
| StreamMerge.OverlongLineHangs | scripts/host-agent/host-agent.py:667-677 | if a line does not fit, no reachable state is a finished one |
| StreamMerge.FinishesExactly | scripts/host-agent/host-agent.py:658-690 | whenever nothing can happen any more the consumer has left its loop, if and only if every line fits |
| StreamMerge.RunsAreFinite | scripts/host-agent/host-agent.py:663-690 | every run ends: its length is bounded by what the process writes |
| StreamMerge.ReadLine | scripts/host-agent/host-agent.py:668 | the next line, or that it is too long |
| StreamMerge.DrainStream | scripts/host-agent/host-agent.py:665-677 | a drainer queues its stream's messages in order and then the sentinel, or dies on an overlong line |
| StreamMerge.Merge | scripts/host-agent/host-agent.py:684-690 | from any queue the consumer yields, in order, the messages it takes, until it has both sentinels or waits on an empty queue |
| VaultMerge.FlattenDict | scripts/vault/update-vault.py:89-98 | whatever the order of entries, the result is a flattening: exactly the leaves' keys, each with a leaf's value |
| VaultMerge.SplitGlue | scripts/vault/update-vault.py:100-104 | splitting a dotted key gives back the dot-free parts it was joined from |
| VaultMerge.GlueSplit | scripts/vault/update-vault.py:100-104 | joining the parts of any key gives the key |
| VaultMerge.PutSucceeds | scripts/vault/update-vault.py:103-110 | writing at a path fails exactly when a leaf lies on the way |
| VaultMerge.PutLeaves | scripts/vault/update-vault.py:103-110 | a write puts its leaf, removes what was below it and keeps every other leaf |
| VaultMerge.UnflattenHolds | scripts/vault/update-vault.py:100-111 | a prefix-free list is rebuilt into a dictionary with exactly its leaves |
| VaultMerge.FlattenUnflatten | scripts/vault/update-vault.py:89-111 | flattening undoes unflattening, in whatever order the entries come, if and only if the keys are prefix-free and none starts with a dot |
| VaultMerge.UnflattenFlatten | scripts/vault/update-vault.py:89-111 | unflattening undoes flattening if and only if keys are dot-free, no sub-dictionary is empty and none sits under an empty top-level key |
| VaultMerge.GetNestedValue | scripts/vault/update-vault.py:113-122 | the loop finds the node at the path, or nothing |
| VaultMerge.LookupAgrees | scripts/vault/update-vault.py:89-122 | looking up a key in the dictionary and in its flattening gives the same value |
| VaultMerge.UpdateKey | scripts/vault/update-vault.py:275-305 | one turn of the loop makes the change due at its key, or none |
| VaultMerge.UpdateLoop | scripts/vault/update-vault.py:267-305 | the loop makes exactly the changes due, in any order of the keys, and counts them |
| VaultMerge.UpdatedIsWanted | scripts/vault/update-vault.py:260-305 | the flat result has at each key what is wanted at its path |
| VaultMerge.UpdateIsExact | scripts/vault/update-vault.py:260-327 | the saved dictionary has exactly the wanted leaves if and only if no wanted path is a prefix of another |
| VaultMerge.UpdateIsConservative | scripts/vault/update-vault.py:260-327 | for prefix-free combined paths the update succeeds, values that are neither null nor placeholders stay, no leaf's path disappears and missing templates are added |
| VaultMerge.EveryLeaf | scripts/vault/update-vault.py:260-327 | for prefix-free combined paths the saved value at every path: the example's template where the vault has nothing or null; what is entered for a plain value that is missing, null or a placeholder; otherwise what the vault had |
| VaultMerge.SubDictionariesKept | scripts/vault/update-vault.py:260-327 | a saved sub-dictionary is one with something wanted below it: every other one, empty ones included, is dropped |
| VaultMerge.CollisionLosesAValue | scripts/vault/update-vault.py:281-286 | otherwise a value can be lost: the update gives both `a.b` and the template at `a`, and the template takes the place of the vault's value |
| VaultMerge.CollisionFlattens | scripts/vault/update-vault.py:89-98 | the flat forms that this update starts from are those of the example and the vault |
| VaultMerge.DictObject.Insert | scripts/vault/update-vault.py:103-110 | the walk through nested dictionary objects, updated in place, has the specified effect and shares nothing with other dictionaries |
| VaultMerge.UnflattenDict | scripts/vault/update-vault.py:100-111 | the loop over the items rebuilds the specified dictionary in place, or stops with a type error exactly when it should |
| VaultMerge.NothingToChange | scripts/vault/update-vault.py:310-348 | with no change made, nothing was wanted that the vault lacks |
| VaultMerge.UpdateVault | scripts/vault/update-vault.py:260-348 | `main` saves only after confirmation and only if there is something to change; what it saves is the rebuilt update, and it fails only if that cannot be rebuilt; without collisions it does not fail, saves exactly the wanted dictionary, and leaves the vault alone only if nothing is to change |
| HealthBatch.BuildCommands | cli/busibox-core/src/health.rs:684-716 | one probe per service, at the address its network base gives, vllm at its own |
| HealthBatch.ReadBatch | cli/busibox-core/src/health.rs:723-745 | the i-th status comes from the i-th non-empty part of the output |
| HealthBatch.FailedCurlIsDown | cli/busibox-core/src/health.rs:695-711 | after a failed curl that printed a number the batch agrees exactly if the number followed by 000 is 0 or over 65535 |
| HealthBatch.PieceAgrees | cli/busibox-core/src/health.rs:503-551 | a piece of the batch's output is classified as the individual check classifies the reply |
| HealthBatch.SplitPrinted | cli/busibox-core/src/health.rs:723 | splitting on the marker and dropping empty parts gives one part per service |
| HealthBatch.BatchAgrees | cli/busibox-core/src/health.rs:660-746 | for every service list, every outcome and with or without a connection, each service gets the status of its individual check |
| HealthBatch.StatusMeans | cli/busibox-core/src/health.rs:482-551 | which address a service is asked at, and which replies make it healthy, unhealthy or down |
| HealthBatch.CutOutputIsDown | cli/busibox-core/src/health.rs:723-738 | if the output breaks off, the services before have their statuses and all later ones are down |
| HealthBatch.NoiseShiftsResults | cli/busibox-core/src/health.rs:723-738 | text printed before the first marker (that does not itself complete a marker) moves every status one service on |
| HealthBatch.AgreesWithoutNoise | cli/busibox-core/src/health.rs:723-738 | if some service is probed, every outcome of every service is read as its individual check would, whatever the services do, if and only if there is no such text |
| HealthBatch.StateMeans | cli/busibox-core/src/health.rs:919-960 | exactly which services must be healthy for each deployment state, and what a partial one counts |
| HealthBatch.StateDoesNotFlicker | cli/busibox-core/src/health.rs:913-961 | as results come in the deployment state only moves up, and a lesser state is final |
| ProfileStore.SanitizeHost | cli/busibox-core/src/profile.rs:450-470 | the loop computes the sanitized host |
| ProfileStore.SanitizedIsClean | cli/busibox-core/src/profile.rs:447-470 | the result has lower-case letters, digits and single hyphens strictly between them |
| ProfileStore.SanitizeFixes | cli/busibox-core/src/profile.rs:447-470 | sanitizing is idempotent and leaves exactly the clean names alone |
| ProfileStore.SanitizeKeepsAlnums | cli/busibox-core/src/profile.rs:447-470 | every ASCII letter and digit of the lower-cased host survives, in order |
| ProfileStore.SanitizeIgnoresCase | cli/busibox-core/src/profile.rs:447-470 | a host and its lower-cased form give the same name |
| ProfileStore.SanitizeLowers | cli/busibox-core/src/profile.rs:450-453 | letters are lower-cased, and so are the two characters outside ASCII that become ASCII letters |
| ProfileStore.NewIdNamesHost | cli/busibox-core/src/profile.rs:475-506 | a remote profile's id starts with its host, if that is a clean name |
| ProfileStore.NewIdOfLocal | cli/busibox-core/src/profile.rs:475-506 | a local profile's id starts with local, and one without a host with remote |
| ProfileStore.NewIdTellsHostsApart | cli/busibox-core/src/profile.rs:475-506 | with the same environment and backend, ids differ exactly as the sanitized hosts do |
| ProfileStore.NewIdIsNotOldStyle | cli/busibox-core/src/profile.rs:475-506 | a new id is never an old-style one, whatever its parts |
| ProfileStore.OwnIdsHaveDistinctTargets | cli/busibox-core/src/profile.rs:496-506 | old ids that are their own profile's environment and backend get pairwise distinct new ids |
| ProfileStore.MigrateMoves | cli/busibox-core/src/profile.rs:511-569 | the migration moves exactly the ids to be renamed to their targets, in any order of the map, and the active pointer with them |
| ProfileStore.MigrationIsOneForOne | cli/busibox-core/src/profile.rs:511-569 | profiles and active pointer are preserved one for one if and only if no two renames have the same target |
| ProfileStore.MigrationMovesOldIds | cli/busibox-core/src/profile.rs:496-569 | only the six ids of an environment and a backend are renamed, each to its profile's new id if that is free, with the active pointer; every other profile keeps its id |
| ProfileStore.SameTargetLosesAProfile | cli/busibox-core/src/profile.rs:535-541 | two old ids with the same target lose a profile |
| ProfileStore.SecondMigrationRenamesNothing | cli/busibox-core/src/profile.rs:511-569 | a second migration changes nothing, collisions or not |
| ProfileStore.RunKeepsActive | cli/busibox-core/src/profile.rs:267-326 | after any sequence of loads, upserts, creations and deletions the active id is empty or in the map |
| ProfileStore.ProfilesFile.CollectRenames | cli/busibox-core/src/profile.rs:512-530 | the first loop collects exactly the renames to make |
| ProfileStore.ProfilesFile.MigrateProfileIds | cli/busibox-core/src/profile.rs:511-577 | the two loops move the renamed profiles in place and report whether there were any |
| ProfileStore.ProfilesFile.Upsert | cli/busibox-core/src/profile.rs:267-282 | the profile is in the map under its id, which becomes the active one exactly if asked |
| ProfileStore.ProfilesFile.Create | cli/busibox-core/src/profile.rs:286-300 | an existing id is refused and nothing changes |
| ProfileStore.ProfilesFile.Delete | cli/busibox-core/src/profile.rs:304-326 | exactly that profile goes; if it was active another one becomes active, or none is left |
| StateFile.LinesOfJoin | cli/busibox-core/src/profile.rs:367-442 | lines joined and ended are read back, each without its final carriage return |
| StateFile.ReadBack | cli/busibox-core/src/profile.rs:367-442 | what reading the written file line by line gives |
| StateFile.OneLinePerKey | cli/busibox-core/src/profile.rs:389-442 | each managed key has exactly one line with the profile's value, or none |
| StateFile.LinesOfLast | cli/busibox-core/src/profile.rs:367 | a last line without a newline is taken as it is |
| StateFile.OwnerLines | cli/busibox-core/src/profile.rs:389-397 | email, domains and tier each stand under their own key, once, or not at all |
| StateFile.BackendLine | cli/busibox-core/src/profile.rs:398-428 | so does the backend: the hardware's, or else the cloud if that is forced |
| StateFile.SiteLines | cli/busibox-core/src/profile.rs:405-413 | so do site domain, certificate and container runtime |
| StateFile.ProviderLines | cli/busibox-core/src/profile.rs:414-423 | so does the cloud provider, and the key of any provider but OpenAI and Anthropic |
| StateFile.CloudKeyLines | cli/busibox-core/src/profile.rs:417-423 | the key of these two stands under their own names |
| StateFile.ClusterLines | cli/busibox-core/src/profile.rs:429-434 | so do kubeconfig and overlay |
| StateFile.DevLines | cli/busibox-core/src/profile.rs:435-440 | so do spot token and apps directory |
| StateFile.OtherLinesSurvive | cli/busibox-core/src/profile.rs:367-387 | every unmanaged line survives in its original order |
| StateFile.WritingTwice | cli/busibox-core/src/profile.rs:361-446 | writing again changes nothing if and only if no kept line still ends in a carriage return |
| StateFile.WriteProfileState | cli/busibox-core/src/profile.rs:361-446 | the filter, the pushes and the join produce the specified contents |
| StateFile.KeysAreGood | cli/busibox-core/src/profile.rs:370-384 | the fifteen managed keys are distinct and end in their only equals sign, so the lemmas about keys apply to them |
| HealthLoop.OneTurn | scripts/host-agent/host-agent.py:1244-1315 | the loop body has the specified effect on the loop's four variables; what it answers to each status is in the rows below |
| HealthLoop.Run | scripts/host-agent/host-agent.py:1240-1316 | so has any number of turns |
| HealthLoop.CountersCount | scripts/host-agent/host-agent.py:1240-1316 | `cycle` counts both-healthy observations in a row and stays below the period, `inference_failures` counts failed probes since the last success or restart |
| HealthLoop.HangFollowsTwoFailures | scripts/host-agent/host-agent.py:1262-1279 | a hang restart follows two failed probes with no success and no restart after the first |
| HealthLoop.ProbeFollowsPeriod | scripts/host-agent/host-agent.py:1250-1258 | each probe follows exactly a period of both-healthy observations with no other observation among them |
| HealthLoop.MoreThanOneFailure | scripts/host-agent/host-agent.py:1266-1279 | over every run more than one failure is recorded at some point if and only if some turn is a due failed probe with one failure recorded whose stop raises |
| HealthLoop.TwoRecorded | scripts/host-agent/host-agent.py:1266-1279 | two due probes that fail, with a stop that raises after the second, are such a run |
| HealthLoop.OutageIsAnswered | scripts/host-agent/host-agent.py:1296-1312 | after any history, a turn that finds no running primary (or only the fast server unhealthy) ends in a start if and only if a PID file exists, or a running primary has been seen since the last such start, or it is the first turn and the servers start on boot |
| HealthLoop.FastDownIsAnswered | scripts/host-agent/host-agent.py:1288-1294 | a healthy primary whose fast server is down ends in a restart unless the stop raises |
| HealthLoop.HealthyIsAnswered | scripts/host-agent/host-agent.py:1250-1279 | with both healthy there is a probe exactly when the period is reached, and a restart exactly when it fails after an earlier failure and the stop does not raise |
| HealthLoop.OtherwiseWaits | scripts/host-agent/host-agent.py:1281-1287 | a primary that runs without answering, and a status that cannot be read, lead to no probe and no start |
| HealthLoop.HangIsCaughtAfter | scripts/host-agent/host-agent.py:1250-1279 | after any history, two periods of both-healthy turns with failing probes force a hang restart |
| HealthLoop.OneStartPerOutage | scripts/host-agent/host-agent.py:1296-1312 | without PID files, between two starts from the final branch a running primary has been seen |
| Pop3Inbox.POP3InboundClient.SaveSeenUids | srv/bridge/app/email_inbound_client.py:178-182 | a save that succeeds lists exactly the seen ids; one that fails leaves the file alone or cut, with nothing to be read from it |
| Pop3Inbox.POP3InboundClient.FetchNewMessages | srv/bridge/app/email_inbound_client.py:193-245 | one poll returns what the specification says, adds it to the seen set and saves that, well or badly, if there is anything new |
| Pop3Inbox.ReturnedAre | srv/bridge/app/email_inbound_client.py:198-240 | a poll returns exactly the listed, unseen ids whose retrieval succeeds, each once if the listing is unique |
| Pop3Inbox.EachIdOnce | srv/bridge/app/email_inbound_client.py:143-149 | over every run with unique listings whose restarts find everything seen in the file, no id is returned twice and the seen set is what was returned |
| Pop3Inbox.SavesAreEnough | srv/bridge/app/email_inbound_client.py:168-182 | if every save succeeds, every restart finds everything in the file |
| Pop3Inbox.RestartIsSafe | srv/bridge/app/email_inbound_client.py:160-182 | without repeats so far, no unique listing polled after a restart can bring one if and only if every id returned is in the file |
| Pop3Inbox.SafeIfSavedInTime | srv/bridge/app/email_inbound_client.py:143-182 | over every run with unique listings all restarts are safe if and only if each finds everything seen in the file |
| Pop3Inbox.UnsavedIsReturnedAgain | srv/bridge/app/email_inbound_client.py:168-182 | a poll whose save fails, a restart and a poll return the same id twice |
| Pop3Inbox.InStepExactly | srv/bridge/app/email_inbound_client.py:238-252 | from any state, however polls and deliveries go on up to the next restart, no message is processed twice and every listed one that can be retrieved is processed, if and only if the processed and the waiting messages are each there once and are exactly the seen ones |
| Pop3Inbox.ProcessedExactlyOnce | srv/bridge/app/email_inbound_client.py:143-252 | over every run with unique listings each message is processed exactly once, across restarts, if and only if every restart finds in the file exactly the ids of the messages processed by then |
| Pop3Inbox.OnlyWaitingIsLost | srv/bridge/app/email_inbound_client.py:238-252 | if every save succeeds, that is so if and only if no restart comes while returned messages wait |
| Pop3Inbox.WaitingIsLost | srv/bridge/app/email_inbound_client.py:238-252 | a message saved as seen that waits at a restart is never processed, though listed again |
| Pop3Inbox.PollEffect | srv/bridge/app/email_inbound_client.py:212-240 | a poll forgets nothing, takes in what it could retrieve and leaves the rest for later polls |
| Pop3Inbox.SeenGrows | srv/bridge/app/email_inbound_client.py:238-240 | the seen set never shrinks over such a run |
| Pop3Inbox.ListedIsReturned | srv/bridge/app/email_inbound_client.py:193-245 | a listed id whose retrieval succeeds has been returned by the end of the run |
| ShellQuote.QuoteReadsBack | cli/busibox/src/main.rs:1592-1593 | wherever it stands, a quoted text adds exactly itself to the word the shell is reading |
| ShellQuote.ExportsReadBack | cli/busibox/src/main.rs:1591-1617 | any sequence of exports is read as those commands |
| ShellQuote.ExportsAreFaithful | cli/busibox/src/main.rs:1591-1617 | any sequence of exports assigns exactly the intended values |
| ShellQuote.PrintfReadsBack | cli/busibox/src/main.rs:2201-2207 | the text of a deployed file reaches `printf` as one argument, unchanged |
| ShellQuote.BareQuotesReadBack | cli/busibox/src/main.rs:1591-1596 | without the escaping a text reads back as itself if and only if it has no quote |

## Left out

- AppManager: shutdown, control requests that overlap, a process that outlives SIGKILL by half a second, writes of the modes file that fail, a subset of enabled apps, the status, health and build endpoints; a blocking build command appears only as lateness of timers.
- AppHandlers.Manager: the waits between its methods; the state machine has them.
- SchemaTypes: how the generation library coerces values between types, member naming rules of Python enums, schema keywords other than `type`, `enum`, `items`, `properties` and `required`; a value has the JSON kind it has.
- ToolCalls: the other tool-call formats and the decoding of a payload, which is a parameter.
- Backfill: failing reads and writes of the two stores, the diagnosis report, the printed counters; in the code a failed copy does not stop the delete that follows it.
- StreamMerge: decoding of bytes, the event text around a message, a process that closes one stream before it exits, the wait for health that follows.
- HealthLoop: how status, probe and start do their work; reading the status, stopping and starting are outcomes of a turn.
- VaultMerge: YAML text, encryption, backups, the wording and order of prompts, keys that are not strings, the order of entries in the saved file; `answers` holds what is entered where a prompt is not skipped.
- HealthBatch: the local and the remote Docker checks, timing, and any change of a service between the two kinds of check; both see the same reply of a probe.
- ProfileStore: Unicode lower-casing beyond the two characters outside ASCII that lower-case to ASCII letters, as all others end as hyphens; profile fields other than environment, backend and host; vault prefixes, key files, state directories and locks.
- StateFile: reading and replacing the file itself; the model tier and the hardware backend are given by name.
- Pop3Inbox: parsing of messages and the JSON text of the state file, of which only the set of listed ids matters; a restart in the middle of processing a message; the IMAP client.
- ShellQuote: double quotes, expansions and comments, at which the lexer gives up; the parts of the remote commands that are not quoted values.
- The terminal UI, the deployment scripts, the web services and the database schemas.
