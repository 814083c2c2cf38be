# cluster-manager core, modelled in Dafny

This project models three pieces of `cluster-manager`, the per-node agent of
edd-cloud, and proves properties about them:

- **The terminal session proxy** (`cluster-manager/terminal.go`). An incoming
  websocket starts a login shell on a pty. Two copy loops move bytes between
  them. Inbound chunks that start with `{` are resize messages: `handleResize`
  scans them for `"cols"` and `"rows"` and calls `Setsize`. When the command
  exits, the session closes the `done` channel, closes the websocket, waits
  for both loops, and finally closes the pty.
  - `resize_scanner.dfy` holds the scanner, as a specification function and
    as a method with nested loops proved equal to it.
  - `terminal_session.dfy` holds both copy loops. Each is a method over a
    scripted list of read results and write outcomes, proved equal to a
    recursive specification function.
  - The session is a `Session` class. Its fields are the lifecycle phase, the
    log of side effects, the `done`-closed and interrupt-sent flags, and
    whether each loop still runs.
- **The cron job store** (`cluster-manager/cron.go`), in `cron.dfy`.
  - `CronStore` is a class holding the job map and the last crontab text
    written.
  - create, update, delete, updateRunStatus, load, list and get change or
    read the map. A failed save rolls the map back.
  - `validateSchedule` fills in defaults.
  - `syncCrontab` renders the crontab.
  - The HTTP handlers decide on status codes.
- **The request gate and uptime text** (`cluster-manager/main.go`).
  - `gate.dfy` holds the shared-secret check of `authMiddleware` and
    `handleTerminal`, and the default shell.
  - `uptime.dfy` holds `intToStr` and the arithmetic and formatting of
    `getUptime`. It also models the Go primitives they rely on: truncating
    `/` and `%`, int-to-rune conversion, and `strings.TrimSpace` with Go's
    white-space set.
- `wrappers.dfy` holds an `Option` type shared by the modules.

The Go runtime panics in the code become explicit outcomes, not
preconditions:

- **The resize scanner's out-of-range read.** The skip loop's guard
  `j < len(str) && str[j] == ' ' || str[j] == ':'` groups as
  `(j < len && str[j] == ' ') || str[j] == ':'`. It therefore indexes past the
  end when only spaces and colons follow a key. This is the outcome `Crash`.
- **The second `close(done)`.** The inbound loop closes `done` on a websocket
  read error (terminal.go:72), and the session closes it again after the
  command exits (terminal.go:96). This is the effect
  `Panic(CloseOfClosedChannel)`. The model shows that the common "shell exits
  first" path reaches it: closing the websocket makes the blocked read fail.
  Where the panic happens decides what follows. The close at terminal.go:96
  runs in the HTTP handler itself, so the deferred `ptmx.Close`
  (terminal.go:23) still runs and the HTTP server recovers the panic
  (phase `HandlerPanicked`). The close at terminal.go:72 and the scanner's
  out-of-range read run in goroutines the handler spawned, where nothing
  recovers a panic, so the whole process ends (phase `Crashed`).

Missing or zero resize fields fall back to the constants 80 columns and
24 rows. The geometry applied by an earlier resize message is not kept.

## Model

| member | source | states |
|---|---|---|
| ResizeScanner.HandleResize | cluster-manager/terminal.go:101-145 | the nested scanning loops compute exactly `Resize(data)`: the panic outcome, or the single geometry passed to Setsize |
| ResizeScanner.ReadField | cluster-manager/terminal.go:111-119 | reading one field (skip one byte, then spaces and colons, then accumulate digits in uint16) agrees with `FieldValue`, including the None case where the skip loop runs off the end |
| ResizeScanner.ScanFrom | cluster-manager/terminal.go:109-138 | starting from positive defaults, any geometry the outer loop produces is positive on both axes |
| ResizeScanner.SkipEndNone | cluster-manager/terminal.go:112-114 | the skip loop reads past the end exactly when every byte from its start on is a space or a colon |
| ResizeScanner.SkipEndStops | cluster-manager/terminal.go:112-114 | when the skip loop stops, it stops inside the chunk at the first byte that is neither a space nor a colon |
| ResizeScanner.DigitRunDecimal | cluster-manager/terminal.go:116-119 | the digit loop yields the decimal value of the maximal digit run, reduced modulo 65536 |
| ResizeScanner.FieldValueIsDecimalMod | cluster-manager/terminal.go:111-119 | a key's value is the decimal number after the key, one skipped byte and any spaces or colons, taken modulo 65536 |
| ResizeScanner.ScanFromCrash | cluster-manager/terminal.go:109-138 | the scan from position i panics if and only if some key at or after i is followed only by spaces and colons from key+7 on |
| ResizeScanner.ResizeCrashes | cluster-manager/terminal.go:107-138 | handleResize panics if and only if the chunk is longer than 10 bytes and holds a key followed only by spaces and colons (or nothing) |
| ResizeScanner.ScanFromKeeps | cluster-manager/terminal.go:120-136 | an axis with no positive value from position i on keeps the value it had at i |
| ResizeScanner.ScanFromLastWins | cluster-manager/terminal.go:120-136 | an axis takes the value of its last key with a positive value |
| ResizeScanner.ResizeDefault | cluster-manager/terminal.go:103-144 | when handleResize does not panic, an axis with no positive value, or any chunk of 10 bytes or fewer, gets the constant default (80 cols, 24 rows); the applied size is always positive |
| ResizeScanner.ResizeLastOccurrenceWins | cluster-manager/terminal.go:109-138 | when handleResize does not panic, each axis is the value of the last occurrence of its key with a non-zero value |
| ResizeScanner.ExampleBothFields | cluster-manager/terminal.go:101-145 | `{"cols":100,"rows":40}` resizes to 40 rows by 100 columns |
| ResizeScanner.ExampleZeroField | cluster-manager/terminal.go:120-122 | a zero `cols` is ignored and the column default 80 is used |
| ResizeScanner.ExampleWrapAround | cluster-manager/terminal.go:116-122 | `cols` 65616 wraps to 80 in uint16 arithmetic |
| ResizeScanner.ExampleTruncatedCrashes | cluster-manager/terminal.go:110-114 | a chunk ending right after the `"cols"` key panics |
| TerminalSession.InboundForwardsKeystrokes | cluster-manager/terminal.go:76-86 | the bytes written to the pty are the non-empty, non-`{` chunks read before the loop stops, concatenated in read order; resize messages and empty reads write nothing |
| TerminalSession.InboundResizes | cluster-manager/terminal.go:78-81 | the Setsize calls are, in order, the scanner's geometries for the `{` chunks read before the loop stops |
| TerminalSession.InboundEnds | cluster-manager/terminal.go:66-88 | the websocket-to-pty loop runs until the first read error, pty write failure or scanner panic; it ends on a read error only when `done` was still open, never by observing `done`, and on a failed write without closing anything |
| TerminalSession.InboundSignalsOnce | cluster-manager/terminal.go:67-74 | the loop's effects close `done` once and interrupt the shell once if it ended on a read error, and never otherwise |
| TerminalSession.InboundReadErrorEffects | cluster-manager/terminal.go:67-74 | a loop that ended on a read error ended by closing `done` and then interrupting the shell |
| TerminalSession.InboundPanicEffects | cluster-manager/terminal.go:67-81 | a loop that panicked ended with the panic; after a read error with `done` already closed, the panic is the close of a closed channel |
| TerminalSession.OutboundForwardsVerbatim | cluster-manager/terminal.go:39-56 | with `done` closed and no read pending, the pty-to-websocket loop does nothing; with `done` open, its websocket writes are the non-empty pty chunks, verbatim and in order, up to where it stops; with `done` closed while a read is pending, only that read's chunk is forwarded |
| TerminalSession.OutboundEnds | cluster-manager/terminal.go:39-58 | the loop ends on a pty read error, a websocket write error, or by observing `done`, and otherwise keeps running; it observes `done` only if `done` is closed, and then exactly when no read was pending or the pending read neither failed nor hit a failed write; it only ever writes non-empty chunks to the websocket |
| TerminalSession.CopyWsToPty | cluster-manager/terminal.go:63-88 | the inbound copy loop's effects and exit reason are those of the `Inbound` specification |
| TerminalSession.CopyPtyToWs | cluster-manager/terminal.go:36-59 | the outbound copy loop's effects and exit reason are those of the `Outbound` specification, including a read that was already pending when `done` closed |
| TerminalSession.Session.Start | cluster-manager/terminal.go:16-29 | a failed pty start writes "Failed to start terminal: " + error + CRLF, closes the websocket and starts no loop; a successful one sets 24 rows by 80 columns and starts both loops |
| TerminalSession.Session.OutboundBlocksInRead | cluster-manager/terminal.go:40-44 | the outbound loop passes the `done` check while `done` is open and blocks in `ptmx.Read`; nothing else changes |
| TerminalSession.Session.RunInbound | cluster-manager/terminal.go:63-88 | running the inbound loop on a script appends its effects to the log, and the flags and phase follow its exit reason: a read error closes `done` and interrupts; a panic crashes the session |
| TerminalSession.Session.RunOutbound | cluster-manager/terminal.go:36-59 | running the outbound loop appends the effects of `Outbound` on the current `done` and pending-read state, which are only websocket writes, and changes neither `done` nor the interrupt flag; no read is pending afterwards unless the script was empty |
| TerminalSession.Session.CommandExited | cluster-manager/terminal.go:91-96 | after cmd.Wait the session closes `done`; if `done` was already closed the close panics in the handler, the deferred pty close runs while it unwinds, and the session ends recovered by the HTTP server |
| TerminalSession.Session.CloseWebsocket | cluster-manager/terminal.go:97 | after closing `done`, the handler closes the websocket and goes on to wait for the loops |
| TerminalSession.Session.LoopsJoined | cluster-manager/terminal.go:98 | once both loops have exited, wg.Wait returns and the deferred pty close runs, in that order; the session is closed |
| TerminalSession.StartFails | cluster-manager/terminal.go:16-22 | a start failure produces exactly the diagnostic line and the websocket close |
| TerminalSession.CleanShutdown | cluster-manager/terminal.go:39-98 | a shell that exits while the outbound loop is blocked in a read closes `done`; the pending read's output is still forwarded, then the websocket is closed, the loops are joined and the pty is closed, in that order |
| TerminalSession.ClientDisconnectsFirst | cluster-manager/terminal.go:23-96 | a client disconnect closes `done` and interrupts the shell; when the shell then exits, the second `close(done)` panics in the handler and the deferred pty close runs |
| TerminalSession.ShellExitsFirst | cluster-manager/terminal.go:44-98 | the shell exiting first closes `done` and the websocket; the inbound loop's failed read then closes `done` again and panics |
| TerminalSession.ResizeDuringSession | cluster-manager/terminal.go:76-86 | a resize message mid-session sets the new size and is not forwarded; the following keystrokes are |
| Cron.WithDefaults | cluster-manager/cron.go:309-328 | filling in defaults always gives a complete schedule and leaves an already complete one unchanged |
| Cron.ValidateSchedule | cluster-manager/cron.go:309-329 | validateSchedule never fails and yields the schedule with its defaults filled in |
| Cron.DefaultsComplete | cluster-manager/cron.go:309-328 | filling defaults makes every field non-empty, keeps each non-empty field as it was, is idempotent and leaves a complete schedule unchanged; an empty seconds field becomes "0" and an empty minute, hour, day, month or weekday field becomes "*" |
| Cron.CrontabText | cluster-manager/cron.go:336-360 | the crontab text starts with the header line and ends in a newline |
| Cron.JobLine | cluster-manager/cron.go:344-352 | a job line ends with the " # cluster-manager:" marker followed by the job's ID |
| Cron.CrontabLines | cluster-manager/cron.go:336-360 | for every iteration order: when no enabled job's line holds a newline, the crontab reads back as the header followed by one line per enabled job; whether or not a line holds a newline, the job lines are the same multiset for any two orders and the text ends in a newline |
| Cron.OneLinePerEnabledJob | cluster-manager/cron.go:339-354 | each enabled job contributes exactly one line and a disabled job none |
| Cron.JobLineFields | cluster-manager/cron.go:344-352 | when no time field holds a space, a job line splits at spaces into the minute, hour, day, month and weekday fields (no seconds), followed by the command and the `# cluster-manager:<id>` marker |
| Cron.SplitJoin | cluster-manager/cron.go:357-360 | content built by ending every line with a newline splits back into exactly those lines |
| Cron.JoinEndsInNewline | cluster-manager/cron.go:357-360 | non-empty content ends in a newline |
| Cron.CollectLines | cluster-manager/cron.go:336-354 | the line-collecting loop visits every job once in some order and yields the header and then the enabled jobs' lines in that order |
| Cron.CrontabMarkers | cluster-manager/cron.go:339-353 | the crontab has one job line per enabled job, and in a store whose jobs carry their own keys as IDs each line belongs to an enabled job and ends with the " # cluster-manager:" marker followed by that job's ID |
| Cron.JoinLines | cluster-manager/cron.go:357-360 | the concatenation loop produces each line followed by a newline |
| Cron.InsertAllKeys | cluster-manager/cron.go:74-76 | after load the keys are the old keys plus the decoded IDs, and every job is still stored under its own ID |
| Cron.InsertAllLastWins | cluster-manager/cron.go:74-76 | a decoded job with no later duplicate is the one stored under its ID |
| Cron.InsertAllKeeps | cluster-manager/cron.go:74-76 | a stored job whose ID is not among the decoded ones is kept |
| Cron.InsertEach | cluster-manager/cron.go:74-76 | the insertion loop computes `InsertAll` |
| Cron.CronStore.SyncCrontab | cluster-manager/cron.go:332-367 | syncCrontab leaves the jobs alone and installs the crontab text of the job map for some iteration order |
| Cron.CronStore.Load | cluster-manager/cron.go:57-78 | a missing file is not an error and changes nothing; a read or decode error is returned and changes nothing; otherwise the decoded jobs are inserted by ID |
| Cron.CronStore.List | cluster-manager/cron.go:94-103 | list returns every stored job exactly once, in some iteration order; in a valid store each returned job's ID is the key it came from |
| Cron.CronStore.constructor | cluster-manager/cron.go:49-52 | a new store has no jobs and no crontab text, and is valid |
| Cron.CronStore.Get | cluster-manager/cron.go:105-110 | get finds a job if and only if its ID is stored, and then returns that job, whose ID in a valid store is the one asked for |
| Cron.CronStore.Create | cluster-manager/cron.go:112-129 | create stores the job under the new ID with its creation time; a failed save removes it again and returns the error; the crontab is synced only for an enabled job |
| Cron.CronStore.Merge | cluster-manager/cron.go:140-144 | an updated record keeps the ID, creation time, last run and last status of the existing one and takes every other field from the new job |
| Cron.CronStore.Update | cluster-manager/cron.go:131-153 | update of an absent ID returns "job not found" and changes nothing; a failed save restores the old record; a successful one stores the merged record and syncs the crontab |
| Cron.CronStore.Delete | cluster-manager/cron.go:155-173 | delete of an absent ID returns "job not found" and changes nothing; a failed save restores the record; a successful one removes exactly that ID and syncs the crontab |
| Cron.CronStore.UpdateRunStatus | cluster-manager/cron.go:175-185 | only the named job's last run and last status change; an absent ID changes nothing; the crontab is untouched |
| Cron.CronStore.HandleCreate | cluster-manager/cron.go:201-225 | the reply follows `CreateReply`; a 400 or 500 reply leaves the jobs and the crontab unchanged; a 201 reply means the job was stored with its defaults, ID and creation time, and the crontab matches the new jobs if the job is enabled and is unchanged otherwise |
| Cron.CronStore.HandleUpdate | cluster-manager/cron.go:227-261 | the reply follows `UpdateReply`; a 400, 404 or 500 reply leaves the jobs and the crontab unchanged; a 200 reply means the merged record was stored and the crontab matches the new jobs |
| Cron.CronStore.HandleDelete | cluster-manager/cron.go:263-280 | the reply follows `DeleteReply`; a 400, 404 or 500 reply leaves the jobs and the crontab unchanged; a 200 reply means the job was removed and the crontab matches the remaining jobs |
| Cron.CronStore.HandleRun | cluster-manager/cron.go:282-307 | a command is launched exactly when the reply is 200, and then it is the job's command under `chroot hostRoot /bin/sh -c` |
| Cron.CronStore.RunFinished | cluster-manager/cron.go:296-304 | when the run ends, the job's status becomes "success" or "failed: " + error, stamped with the time |
| Cron.CronCount | cluster-manager/cron.go:187-194 | the job count is 0 before the store exists and the number of stored jobs after |
| Cron.RunStatusText | cluster-manager/cron.go:299-302 | the status text is "success" for a clean run, otherwise "failed: " followed by the error |
| Cron.RunArgv | cluster-manager/cron.go:297 | the run command line is `chroot <hostRoot> /bin/sh -c <command>` |
| Cron.ReplyCodes | cluster-manager/cron.go:201-293 | every status code of the create, update, delete and run handlers as an if-and-only-if condition on the request and the store's answer: 400 for an undecodable payload, a missing name or command, or a missing ID; 404 exactly for "job not found" on a well-formed request; 500 exactly for any other store error; 201 or 200 exactly when the request is well formed and the store succeeds |
| Gate.Authorize | cluster-manager/main.go:103-114 | a request reaches the next handler if and only if no secret is configured or the header equals the secret; the rest get 401 "unauthorized" |
| Gate.ShellFor | cluster-manager/main.go:126-129 | the shell is SHELL when it is set and non-empty, otherwise /bin/bash |
| Gate.Terminal | cluster-manager/main.go:116-140 | a session starts if and only if the secret check passes, running `chroot <hostRoot> <shell> -l` with the server's environment plus TERM, HOME and USER |
| Gate.SameRule | cluster-manager/main.go:105-124 | the terminal gate admits exactly the requests the middleware admits |
| Uptime.IntToStr | cluster-manager/main.go:99-101 | intToStr gives one or two characters, and for a natural number the last one is its last decimal digit |
| Uptime.IntToStrSmall | cluster-manager/main.go:99-101 | for 0..99 intToStr is the decimal form, reads back as n, has no leading zero, and gives "0" for 0 |
| Uptime.IntToStrLarge | cluster-manager/main.go:99-101 | from 100 on the first character is not a digit (':' for 100..109), and only the last digit survives |
| Uptime.BreakDown | cluster-manager/main.go:82-85 | the hours of the day are below 24 and the minutes of the hour below 60 |
| Uptime.BreakDownExact | cluster-manager/main.go:82-85 | hours are below 24, minutes below 60, and days, hours and minutes add up to the uptime rounded down to a whole minute |
| Uptime.FormatDays | cluster-manager/main.go:86-92 | with 1..99 days the text is "Dd Hh Mm" in decimal |
| Uptime.FormatUptime | cluster-manager/main.go:77-97 | the uptime text is "unknown" exactly when Sysinfo failed; otherwise it ends with the minutes' "m" |
| Uptime.FormatUptimeShape | cluster-manager/main.go:77-97 | below 100 days the text is "Dd Hh Mm" when there are days, "Hh Mm" when there are hours, "Mm" otherwise; a failed Sysinfo gives "unknown" |
| Uptime.Uptime850Days | cluster-manager/main.go:86-101 | 850 days of uptime is shown as "0d 0h 0m": intToStr(850) starts with U+0085, which TrimSpace removes |

## Left out

- Goroutine interleaving, `select`, channels and `sync.WaitGroup`. These appear in terminal.go:31-98. The session is a sequential state machine, and each loop runs over one script segment at a time. Interleavings are built by calling the loop methods in turn. A read the outbound loop has already started when `done` closes is modelled as a pending read that `Outbound` completes first.
- The HTTP server's recovery of a handler panic. After the recovered panic at terminal.go:96 the model records the deferred pty close and stops. What the server then does to the connection, and the loops that may still be running, are not modelled.
- The 4096-byte read buffer. A scripted read delivers one chunk of any length, so how reads are cut into chunks is left out.
- Partial writes. A write either succeeds whole or fails.
- The pty library, websocket I/O, `exec.Command`, `Process.Signal` and `cmd.Wait`. These are foreign calls. They become scripted outcomes and logged effects.
- The store's `sync.RWMutex`. `syncCrontab` takes a read lock while create, update and delete hold the write lock. In Go that deadlocks. A sequential model cannot show it.
- File I/O and JSON.
  - `save` is an oracle: each mutating operation is told whether it succeeds or which error it returns. The JSON content saved is not modelled.
  - `load` receives the outcome of reading and decoding.
  - The crontab is written to two paths. Both writes are modelled as one `crontab` field, and their errors are ignored as in the source.
- `uuid.New`, `time.Now` and `syscall.Sysinfo`. Each becomes a parameter.
- Go's map iteration order. The iterating operations pick keys with `:|` and report the order they used as a ghost value. Results are stated for every order, or as multisets.
- Pointer aliasing of `*CronJob`.
  - `create` writes the ID and creation time into the caller's struct.
  - `updateRunStatus` mutates the stored struct in place.
  - Jobs are values here, so such changes are not shared.
- JSON `null` entries in crons.json. These decode to a nil pointer and panic in `load`.
- HTTP plumbing. This covers request decoding, `writeJSON` bodies, `logRequests`, the route table, `healthz` and `handleInfo`.
- Log output.
- The cluster-monitor program. cluster-monitor is not part of this model.
- Go strings are byte strings. `uptime.dfy` treats text as code points. That difference matters only for non-ASCII runes. From 100 to 799 days the first character of the day count becomes an ASCII character from ':' up to U+007F. The first non-ASCII rune, U+0080, appears at 800 days.
- Uptime.BreakDown: works on whole seconds with integer division instead of `Duration.Hours()` and `Minutes()` in floating point. The two agree for realistic uptimes. `Duration` overflow beyond about 292 years is not modelled.
- Uptime.FormatUptimeShape: states the text only up to 99 days. From 100 days on, `intToStr` no longer produces digits; IntToStrLarge and Uptime850Days cover that case.
- Uptime.IntToStrLarge: requires n/10 + '0' to fit in an int32, so the rune does not wrap.
- Cron.CronStore.Create: assumes the new UUID is not already a key. A collision would overwrite an existing job.
- Cron.CronStore.HandleCreate: requires a fresh UUID, as Create does. The created job's JSON body in the reply is not modelled.
