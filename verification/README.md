# Verified model of the home automation tools

A Dafny model of four Go programs of this repository, with proofs of what they keep, decide and promise.

**Serial expect** (`cmd/serial_expect/main.go`). A small language of `send`, `expect`, `monitor` and try
blocks has two interpreters. The live one consumes the characters of a serial port while timers may fire; the
dry run reads the lines of a capture. `Live` says what each live handler does to the port, `Interpreter` has the
handlers as the loops they are, and the other modules say what that means: an expect is the shortest
prefix that shows its pattern, matching as early as possible loses nothing in either interpreter, an attempt
of a try block that runs on after an error decides as one that stops would, a retry does so for exactly one
shape of script, nothing received is lost or read twice, and a dry run that succeeds predicts the live run in all but one exactly described family of
captures, which `Prediction.BlankCornerHappens` shows to be reached. The parser has a printer as its inverse, and escape decoding has an encoder.

**The dashboard** (`cmd/home-automation-server`). Three reader-writer locks protect the device statuses, the
bounded MQTT log and the set of websocket clients. `Dashboard` is a system of any number of threads, each a
handler taken apart into single steps. Every reachable state is free of deadlock, once no new handler begins
all of them complete within a bounded number of steps, every client with its first dump knows each device as the server does, and the log reaches each client without a gap. `App` has
the same handlers as methods on the server's fields, and `Uninterrupted` proves that the steps of a message handler
that runs alone add up to its method.

**The MQTT listener** (`cmd/mqtt_listener/main.go`). In XML mode the listener subscribes to its own replies. A
potential on topics, resting on the matching rules of section 4.7 of OASIS MQTT 3.1.1, counts exactly how
many messages it handles because of each one from outside.

**The command runner** (`cmd/command_runner_server/main.go`). The reload loop watches files whose list depends
on the configuration it reloads; it comes to rest within two ticks, and what is then in force is what is on
disk under an exact condition only. The output buffer is the tail of all output.

## How the model is set up

- A string is a sequence of bytes below 128, one `char` each. Larger bytes are re-encoded by `string(char)` at
  `cmd/serial_expect/main.go:649` and cut again at line 812; they are not part of this model.
- The read channel and the timers are one trace of events. A timer event is the firing of whatever timer is
  armed then; a monitor with a line count arms none and passes over it. When the trace ends while a handler
  still waits, the outcome is `Blocked`: it has not returned.
- The port also holds the outcomes of the writes to come. A failed write transmits nothing.
- Regular expressions, and the parsers of durations and integers, are parameters (`Patterns.Libs`). A monitor
  parameter is a duration, a line count or invalid, tried in the order of the code.
- A lock's record is its readers and its one announced or inside writer; an announced writer keeps new readers
  out. A message handler that logs and then updates a status is two threads, which allows more interleavings.
- A write to a connection is one step and returns. After a failed write every later one fails; a broadcast
  then drops the client, the first dump ignores the error. Deleting from the client map under the read
  lock (`cmd/home-automation-server/mqtt.go:189` and 234) is one step.
- A status payload is not JSON or is a JSON object. Other JSON values make the type assertion at
  `cmd/home-automation-server/mqtt.go:165` panic.
- The listener's base topic has no wildcard and is not empty; `parseBrokerURL` refuses an empty one, and MQTT
  forbids publishing to a name with a wildcard.
- The broker delivers a message once for each matching subscription. The subscription at
  `cmd/mqtt_listener/main.go:323` is at least once; a message delivered again would be handled and counted again.
- Calls of `appendOutput` happen one at a time. HTTP handlers may call it concurrently, without a lock
  (`cmd/command_runner_server/main.go:246-257`); lost or mixed updates are not part of this model.
- One pass of the reload loop sees one state of the file system.

Where comments and code differ the code is followed. The `break` statements at
`cmd/serial_expect/main.go:698`, 704 and 709 leave the `switch` only, so an attempt goes on after an error.
With a retry this changes verdicts, both ways: the first attempt can use up input that the retry would have
matched (`Retry.RetryIsNotStopAtFirst`: the written form fails, the stopping one succeeds), and it can use up
failing writes that the retry would have met (`Retry.RetryCanRescue`: the other way round).
`Retry.RetryAgreesExactlyWhen` says for which scripts the verdicts are the same. A monitor with a negative count is accepted and never returns. A status request to the listener comes back to it
as a request for a command named `status`.

## Model

| member | source | states |
|---|---|---|
| Script.ParseScript | cmd/serial_expect/main.go:582-610 | the result is what the lines say, each command at its place in their order; the loop that appends computes the parse that the lemmas below are about |
| Script.ParseLineMeaning | cmd/serial_expect/main.go:592-605 | a line is a command exactly when it begins with send, expect or monitor and one blank, the rest being the value, or is monitor alone |
| Script.ParseFailsAtFirstUnreadable | cmd/serial_expect/main.go:584-606 | a text parses if and only if no line of it is unreadable, and the error carries the number and text of the first such line |
| Script.ParseYieldsWellFormed | cmd/serial_expect/main.go:586-604 | every command of a successful parse has a value that one line can carry |
| Script.ParsePrint | cmd/serial_expect/main.go:582-610 | parsing the printed form of any well-formed commands returns them |
| Script.ParsePrintParse | cmd/serial_expect/main.go:582-610 | printing a parsed text and parsing again gives the same commands, leading blanks in values included |
| Text.TrimSpaceMeaning | cmd/serial_expect/main.go:584-588 | the trimmed text is the only part of a text with nothing but blanks around it and a blank at neither end |
| Text.LinesMeaning | cmd/serial_expect/main.go:896-900 | lines end at newlines, and the current line begins after the last newline |
| SendValue.DecodeIsOnePass | cmd/serial_expect/main.go:518-520 | the two replacements in a row equal one simultaneous left-to-right pass, on every string |
| SendValue.DecodeMeaning | cmd/serial_expect/main.go:516-520 | at the front of a text each escape gives its character, and any other character itself |
| SendValue.QuotedSendTransmits | cmd/serial_expect/main.go:505-527 | a double-quoted encoding of a text transmits that text if and only if it has no backslash directly followed by r or n |
| SendValue.FormatMeaning | cmd/serial_expect/main.go:505-527 | a single-quoted text is sent with a carriage return, a double-quoted one decoded, any other value as it is |
| Patterns.ParsePatternExactly | cmd/serial_expect/main.go:909-943 | a value parses to a pattern if and only if it is that pattern in its own quotes, and a regular expression compiles |
| Patterns.ParsePatternMeaning | cmd/serial_expect/main.go:909-943 | which kind of pattern each pair of quotes makes, and which error any other value gives |
| Patterns.LiveMatchMeaning | cmd/serial_expect/main.go:945-961 | a single-quoted text matches exactly where it occurs in all received text, in letters of either case; a double-quoted one when the trimmed current line begins with it; a regular expression is asked about the current line |
| Patterns.LineStartMeaning | cmd/serial_expect/main.go:951-953 | a double-quoted text without blanks at its ends matches a line exactly when only blanks come before it |
| Patterns.DryMatchIsLiveOnLine | cmd/serial_expect/main.go:529-545 | a captured line matches exactly when it matches live as all that was received, for every kind of pattern |
| Patterns.DryMatchIsLive | cmd/serial_expect/main.go:529-545 | a captured line that matches also matches live when it is the current line of any longer text |
| Interpreter.SerialExpect.HandleSend | cmd/serial_expect/main.go:838-871 | the whole new port: one write outcome used; a failing write transmits nothing, any other exactly the text that the quotes of the value ask for |
| Interpreter.SerialExpect.HandleExpect | cmd/serial_expect/main.go:873-907 | the loop with its two builders has the specified effect, which the lemmas on expects and patterns determine; the line it keeps is always the text after the last newline; an unreadable pattern fails and consumes nothing |
| Interpreter.SerialExpect.HandleMonitor | cmd/serial_expect/main.go:772-836 | the loop with its buffer and line counter has the specified effect; it returns exactly when its parameter and the trace say |
| Interpreter.SerialExpect.RunAttempt | cmd/serial_expect/main.go:691-711 | the loop of one attempt, which remembers the last error and goes on, has the specified effect |
| Interpreter.SerialExpect.RunExcept | cmd/serial_expect/main.go:744-763 | the loop over the except script, which only logs errors, has the specified effect |
| Interpreter.SerialExpect.HandleTry | cmd/serial_expect/main.go:661-770 | the loop over attempts, with its remembered error and the except script at the end, has the specified effect |
| Interpreter.SerialExpect.ExecuteScript | cmd/serial_expect/main.go:337-362 | the top-level loop has the specified effect |
| ExpectMeaning.ExpectIsShortestPrefix | cmd/serial_expect/main.go:881-906 | a successful expect consumes exactly the shortest non-empty prefix of characters that shows its pattern; a failed one ends at a timer before any such prefix; a blocked one has seen everything |
| ExpectMeaning.ExpectVerdict | cmd/serial_expect/main.go:886-906 | an expect succeeds if and only if some prefix shows the pattern, and fails if and only if none does and a timer fires |
| MonitorMeaning.MonitorObserves | cmd/serial_expect/main.go:799-835 | a monitor logs exactly the lines completed while it ran, line ends removed, and stops at the earliest moment its parameter allows, whatever timers the trace offers |
| MonitorMeaning.LoggedLineMeaning | cmd/serial_expect/main.go:810-820 | a logged line is a received line up to the carriage returns and newlines at its end |
| MonitorMeaning.ReceivedMeaning | cmd/serial_expect/main.go:799-812 | what counts as received, and how many lines are complete, one event at a time |
| MonitorMeaning.TimedMonitorEndsAtTimer | cmd/serial_expect/main.go:785-806 | a monitor without a parameter or for a duration ends at the first timer event and nowhere else |
| MonitorMeaning.LineMonitorPrintsN | cmd/serial_expect/main.go:814-826 | a monitor for n lines returns if and only if n newlines arrive, and has then logged exactly n lines |
| MonitorMeaning.NegativeCountNeverReturns | cmd/serial_expect/main.go:803-835 | with a negative count no finite trace makes a monitor return |
| Control.RunSound | cmd/serial_expect/main.go:337-362 | every run takes input and write outcomes from the front only and adds transmissions and log lines at the end only; a run that has not returned has taken the whole trace |
| Control.RunConserves | cmd/serial_expect/main.go:337-362 | the segments consumed by the started commands, followed by what is left, are the input |
| Control.RunStopsAtFirstFailure | cmd/serial_expect/main.go:338-361 | the started commands are a prefix of the script, all but the last succeeded, and the run is a success if and only if all did |
| TryBlocks.AttemptRefinesStopAtFirst | cmd/serial_expect/main.go:691-717 | the written attempt succeeds exactly when the stopping form does, with the same effect; when that form fails the written one consumes, transmits and logs at least as much |
| TryBlocks.AttemptReportsLastError | cmd/serial_expect/main.go:692-711 | a returning attempt has run every command and reports the error of the last one that failed |
| Retry.SingleAttemptVerdict | cmd/serial_expect/main.go:679-725 | without a retry both forms decide alike whenever the written one returns |
| Retry.AchievableExactly | cmd/serial_expect/main.go:661-717 | some port lets a script succeed if and only if each command can succeed, read off the command: a pattern that parses and some line shows, a monitor that is valid and not negative |
| Retry.RetryAgreesExactlyWhen | cmd/serial_expect/main.go:679-725 | with a retry the written and the stopping form decide alike on every port if and only if all commands but the last are monitors or the script cannot succeed; under no other condition does the written form succeed wherever the stopping one does |
| Retry.SameAttempts | cmd/serial_expect/main.go:679-725 | where they agree on a script that can succeed, both forms do exactly the same to the port |
| Retry.RetryCanRescue | cmd/serial_expect/main.go:686-725 | every script that can succeed and has a send after its first command that is no monitor has a port on which only the written form succeeds |
| Retry.RetryWithoutMonitors | cmd/serial_expect/main.go:679-725 | without monitors, either form succeeds wherever the other does if and only if there is at most one command or the script cannot succeed |
| Retry.RetryIsNotStopAtFirst | cmd/serial_expect/main.go:686-725 | a trace on which the retry of the stopping form succeeds and the written one fails |
| TryBlocks.TryVerdict | cmd/serial_expect/main.go:679-769 | a try block makes at most two attempts, succeeds if and only if in one of them every command did, and runs a runnable except script once, after all failed, without changing the verdict |
| TryBlocks.TryWithoutScript | cmd/serial_expect/main.go:668-677 | a try block whose script is missing or does not parse fails with that error and touches nothing |
| TryBlocks.RecoverRunsEverything | cmd/serial_expect/main.go:744-763 | the except script executes every command from where the one before it stopped, errors ignored |
| GreedyLive.GreedyIsComplete | cmd/serial_expect/main.go:873-907 | a script of sends and single-quoted expects succeeds on a stream if and only if the stream has some cut into segments holding the searched texts; the interpreter's cut is then pointwise least |
| GreedyLive.GreedyFindsSturdyCuts | cmd/serial_expect/main.go:873-961 | for patterns of any kind, a successful run cuts the stream into segments that show the patterns, and a run succeeds, standing nowhere later, whenever some cut's double-quoted and regular expression segments hold their last line as a whole |
| GreedyLive.PartialLineCanBeMissed | cmd/serial_expect/main.go:886-906 | a double-quoted pattern and a stream with a cut that the run misses, because an earlier match leaves a longer line |
| DryRun.SearchLines | cmd/serial_expect/main.go:396-412 | the line loop finds the first matching line from its start, and leaves the index just after it or at the end |
| DryRun.ShowLines | cmd/serial_expect/main.go:489-497 | the monitor loop skips ten lines or what is left |
| DryRun.DryTry | cmd/serial_expect/main.go:436-483 | the loop over a try block's main script, where a pattern that is not found is only reported |
| DryRun.DryCommand | cmd/serial_expect/main.go:376-499 | one turn of that loop, for each kind of command, has the specified result |
| DryRun.ExecuteDryRun | cmd/serial_expect/main.go:364-503 | the dry run's loops with their advancing line index have the specified result; if it passes it has shown the sends of the script once and in order |
| DryRun.DryRunShowsSends | cmd/serial_expect/main.go:376-486 | a dry run that passes shows every send, those of the main scripts of try blocks included, once and in order |
| DryRun.DryStepFails | cmd/serial_expect/main.go:379-448 | each error of the dry run says what is true: no later line matches, the value or script cannot be read, the script is missing |
| GreedyDry.DryRunIsComplete | cmd/serial_expect/main.go:376-499 | a script of any commands passes if and only if some choice of lines is a schedule; the line indexes of the dry run are then one, pointwise least, and never past the end |
| Prediction.DryRunPredictsLiveRun | cmd/serial_expect/main.go:364-416 | a script of sends and expects that passes the dry run on a capture also succeeds live on its characters and transmits the same strings, if and only if the capture is not all newlines with one expect for each of its lines; in that corner the live run waits forever |
| Prediction.BlankCornerHappens | cmd/serial_expect/main.go:396-412 | the corner is reached: for every n, n newlines and n + 1 expects for anything pass the dry run, and the live run waits forever |
| Prediction.NoBlankPatternNoCorner | cmd/serial_expect/main.go:376-416 | without a pattern that matches the empty line the prediction is unconditional |
| Prediction.LiveRunDoesNotPredictDryRun | cmd/serial_expect/main.go:399-412 | a script and a capture on which the live run succeeds and the dry run does not; GreedyDry.DryRunIsComplete says exactly when the dry run passes |
| Selection.SelectScripts | cmd/serial_expect/main.go:180-253 | the loops compute the specified selection, and the result means what it says: the requested scripts in their order, the only script of an empty request, or the first thing that is wrong |
| Selection.SelectionMeaning | cmd/serial_expect/main.go:180-253 | for every configuration and request: which scripts are selected in which order, the last of a name and the marker of a try block; or which error, about the first try block or name that is wrong |
| Selection.DecimalMeaning | cmd/serial_expect/main.go:190 | the number in an invented name is its position, in digits without leading zeros |
| Selection.ParseTryBlock | cmd/serial_expect/main.go:547-580 | the command built holds the first try block of the name and the scripts that have a name of their own, or there is no such block |
| Selection.ReferenceFailsExactlyWhen | cmd/serial_expect/main.go:200-208 | in an accepted configuration a reference fails at run time if and only if no script declares it and the check was satisfied by an invented name or an earlier try block |
| Selection.ReferencesResolve | cmd/serial_expect/main.go:196-214 | if all scripts are named and no reference is a try block's name, every reference of an accepted configuration resolves at run time to the script the check saw, the last of its name |
| Selection.TryNeverLacksScript | cmd/serial_expect/main.go:668-671 | a try command built from such a configuration never fails for want of a script |
| Selection.AcceptedButUnresolved | cmd/serial_expect/main.go:187-203 | without that discipline an accepted configuration can hold a try block that cannot find its script |
| Locking.LockInvReachable | cmd/home-automation-server/mqtt.go:155-237 | in every reachable state each lock agrees with what the threads do, has at most one announced or inside writer, and no reader inside together with a writer |
| Locking.NoDeadlock | cmd/home-automation-server/web.go:72-107 | in every reachable state, if some thread has something to do, some thread with something to do can step |
| Locking.KeptOutBy | cmd/home-automation-server/mqtt.go:155-177 | a reader is kept out only by a writer, and a writer inside only by readers |
| Locking.DataChangesUnderLocks | cmd/home-automation-server/mqtt.go:155-219 | statuses and the log change only under their lock as a writer |
| Locking.ClientsChangeUnderLock | cmd/home-automation-server/web.go:72-107 | clients are added only under the ws lock as a writer, removed and written to by broadcasts only under it |
| Completion.HandlersComplete | cmd/home-automation-server/mqtt.go:155-237 | from every reachable state, while no new handler begins, every run has a bounded number of steps, and some thread at work can step until every handler has finished or waits for its client to leave |
| Completion.MoveCosts | cmd/home-automation-server/web.go:72-107 | each step of any thread lowers the number of steps left, loops over clients, devices and log entries included |
| Replicas.ReplicaInvStep | cmd/home-automation-server/mqtt.go:155-192 | every step keeps: a registered sound client knows each dumped device as the server does or a broadcast still owes it |
| Replicas.ReplicasConverge | cmd/home-automation-server/web.go:72-86 | without a writer at the status lock, the last status a registered sound client was sent of each dumped device is exactly the server's |
| LogDelivery.DeliveryInvStep | cmd/home-automation-server/mqtt.go:194-237 | every step keeps the account of what each client has received of the log |
| LogDelivery.NoGapAtConnect | cmd/home-automation-server/web.go:72-97 | without a writer at the log lock, a registered sound client with its log dump has exactly the log as it stood when the dump began, every entry added after its registration in order, and so no gap from the oldest dumped entry to the newest |
| BoundedLog.LogIsNewestOfHistory | cmd/home-automation-server/mqtt.go:205-215 | after any sequence of entries the log is the newest-first list of the last min(n, size), a non-positive size meaning 20 |
| App.Server.InitializeDeviceStatus | cmd/home-automation-server/mqtt.go:97-110 | exactly the configured identifiers are added, each with the description of its last device and an empty status; all others keep theirs |
| App.Server.HandleStatusUpdate | cmd/home-automation-server/mqtt.go:155-192 | an update changes the status of one device and nothing else of it: an object replaces it, other text becomes its value, the time is stamped; each client that stays registered has it as its last word on the device; an unknown device changes nothing |
| App.Server.AddMQTTLogEntry | cmd/home-automation-server/mqtt.go:194-219 | the log of all entries becomes the log of all entries and this one, newest first and at most as long as configured, and every client is told or dropped |
| App.Server.Broadcast | cmd/home-automation-server/mqtt.go:221-236 | the loop tells every client once, in whatever order, and drops exactly those whose write fails |
| App.ToldMeaning | cmd/home-automation-server/mqtt.go:179-191 | a client gets the message as its next one and stays, or cannot be written to and is dropped; no other connection is touched |
| Dashboard.MergeMeaning | cmd/home-automation-server/mqtt.go:159-171 | which keys and values a status has after an update |
| Dashboard.ClientsLeave | cmd/home-automation-server/mqtt.go:185-190 | a client is removed only by its own handler or by a broadcast that cannot write to it |
| Uninterrupted.UpdateAlone | cmd/home-automation-server/mqtt.go:155-192 | from every reachable state, a status handler whose thread runs alone to its end leaves the shared data as HandleStatusUpdate does, in whatever order it visits the clients |
| Uninterrupted.LoggingAlone | cmd/home-automation-server/mqtt.go:194-237 | the same for a log handler and AddMQTTLogEntry |
| Uninterrupted.CanFinishAlone | cmd/home-automation-server/mqtt.go:155-237 | from every reachable state where no other thread is at work such a run exists, whichever writes fail |
| Topics.PlainMatches | cmd/mqtt_listener/main.go:314-319 | a filter without wildcards matches only itself |
| Topics.PlusMatches | cmd/mqtt_listener/main.go:315 | the filter base/+ matches exactly the names base/x with no further slash in x |
| Listener.HandleMessage | cmd/mqtt_listener/main.go:180-253 | which messages are answered, on which topic, and with what: in XML mode every reply goes to the request topic followed by /status, the base lists the command names and base/name runs the command of that name or reports that there is none; legacy mode answers everything |
| Listener.LoadXMLCommands | cmd/mqtt_listener/main.go:99-124 | exactly the non-empty names are commands, the last of each name counts, trimmed, and a file without any is refused |
| Listener.DeliveredAtMostOnce | cmd/mqtt_listener/main.go:311-332 | no topic matches both subscriptions, and those that match one are exactly the ones with potential |
| Listener.ReplyPotential | cmd/mqtt_listener/main.go:189-235 | a delivered message is always answered, and its potential is one more than that of its reply |
| Listener.CascadesTerminate | cmd/mqtt_listener/main.go:180-253 | n messages from outside cause at most 2n handled messages in XML mode and n in legacy mode, in at most 4n or 3n steps, and exactly the total of their potentials once nothing is on its way |
| Listener.StatusRequestComesBack | cmd/mqtt_listener/main.go:191-208 | a status request is handled twice, the second time as a request for a command named status |
| Watcher.Runner.LoadConfig | cmd/command_runner_server/main.go:64-99 | configuration and templates change together, to those on disk with bootstrap as the framework if none is named, or not at all |
| Watcher.Runner.GetWatchedFiles | cmd/command_runner_server/main.go:423-450 | a file is watched if and only if it is the configuration file, which comes first, or a match of one of the three patterns that can be expanded |
| Watcher.Runner.InitFileWatcher | cmd/command_runner_server/main.go:452-459 | every watched file that is there gets its own time, all others keep theirs, and no watched file has news |
| Watcher.Runner.CheckForChanges | cmd/command_runner_server/main.go:461-479 | reports a change if and only if some watched file is there with a later time than seen or was never seen; exactly those get their new time |
| Watcher.Runner.Tick | cmd/command_runner_server/main.go:481-495 | one pass of the watcher: the whole new state; it reloads if and only if some watched file has a later time or is new |
| Watcher.SeenSettles | cmd/command_runner_server/main.go:465-476 | after a check exactly the files not looked at can have news |
| Watcher.ReloadsStop | cmd/command_runner_server/main.go:481-495 | with the file system at rest at most two further ticks reload, from any state; at most one if the first keeps the directory |
| Watcher.TwoReloads | cmd/command_runner_server/main.go:423-495 | two reloads do happen when a changed configuration names a directory with unseen files |
| Watcher.InForceExactlyWhen | cmd/command_runner_server/main.go:481-495 | with the file system at rest, from the first tick on, what is in force is what is on disk if and only if it can be loaded and was in force before or that tick had news |
| Watcher.FailedLoadIsNotRetried | cmd/command_runner_server/main.go:461-495 | a failed load uses up the news: no later tick loads anything, unless a watched file changes |
| Watcher.LateTemplatesAreMissed | cmd/command_runner_server/main.go:64-99 | a file system whose templates come after the tick that saw the new directory: they can be loaded and never are |
| Watcher.ConfigMatchesTemplates | cmd/command_runner_server/main.go:91-99 | however the file system changes, configuration and templates in force come from one and the same successful load |
| OutputTail.TailOfTail | cmd/command_runner_server/main.go:250-254 | cutting the old output before appending gives the same tail as keeping everything |
| OutputTail.Outputs.AppendOutput | cmd/command_runner_server/main.go:246-257 | the output stays the last min(total, 10240) characters of all text appended, in order |
| OutputTail.Outputs.GetLatestOutput | cmd/command_runner_server/main.go:259-266 | that tail, or the fixed notice when nothing was appended |

## Left out

- Serial port settings, the MQTT client library, HTTP serving, websocket framing and process execution: calls into code not shown; traces, message lists and parameters stand for them.
- XML and JSON decoding, template parsing, URL parsing and file reading: decoded values are inputs.
- The combination of selected scripts into one command list in `main`, and the outer script timeout with its extension for monitors: they only start and abandon the runs modelled here.
- Reads of `readSerial` that log whole lines and skip read errors: the trace begins at the channel.
- Prediction.DryRunPredictsLiveRun: does not cover monitors and try blocks, because the dry run shows ten lines for any monitor and reports a pattern missing inside a try block without failing, so its success promises nothing about them.
- GreedyLive.GreedyFindsSturdyCuts: does not say when a cut that splits the line of a double-quoted or regular expression pattern leads to success, because that depends on what the pattern makes of a longer line; `GreedyIsComplete` is exact for single-quoted patterns.
- Retry.RetryCanRescue: does not cover scripts with monitors in which only monitors and expects follow the first command that can fail, because where the second attempt meets its timers then depends on what each pattern matches; RetryAgreesExactlyWhen covers every script.
- Dashboard.NextOp: does not give readers that waited for a writer precedence over the next writer, as Go's lock does; every order that Go allows is allowed here.
- Websocket writes that interleave inside one message, and map access under the read lock: each is a single step here.
- `initializeDeviceStatus` as a thread: it ends before the server accepts connections, so it is the initial state.
- `executeCommand` of the listener and of the runner, system statistics and duration formatting: process output and floating-point text.
- Reconnection to the broker and its retry counters, control requests and page rendering: they add no shared state beyond the handlers modelled.
- Browser code, style sheets, packaging scripts and service files.
