# imapfetch-idle, modelled in Dafny

imapfetch-idle watches IMAP mailboxes with IDLE and runs `mbsync` when new
mail arrives. It reads the accounts from `~/.mbsyncrc`, starts one watcher
thread per (account, folder), and collects the watchers' signals in a main
loop. Each signal burst becomes one `mbsync` run with a configuration
document in which every `PassCmd` line is replaced by the password it
produces.

This project models the sequential logic of the two source files and proves
properties about it:

- `common.dfy` (module `Common`): `Option`, `Result` (a value or the
  exception the source raises instead), ASCII `str.lower`, and `OrdMap`, a
  Python `dict` with string keys that keeps insertion order.
- `mbsyncrc.dfy` (module `MbsyncRc`):
  - `parse`, as a line loop (`ParseSections`) proved against the line-by-line
    state machine `ParseLines`/`ParseStep`, followed by the folder
    attachment loops;
  - `generate`, as a line loop proved against `Generated`;
  - the pure part of `call_mbsync`: the password map and the command line.

  A configuration line is a pair (raw text, tokens). The tokens come from an
  abstract tokenizer standing in for `shlex.split`. The password command is
  a parameter `run` that gives the command's output, or `None` when it
  fails.
- `imapfetch-idle.dfy` (module `ImapIdle`):
  - the certificate checks;
  - `connect`, over an abstract description of what the network and the
    server do (`ConnectEnv`);
  - the recent-mail count;
  - the `IMAPSocket` class with its mutable `connected`, `deathpill`, event
    and queue. Its `idle` loop consumes a trace of rounds. A round says how
    connect and IDLE turn out, whether the IDLE callback fires, when
    `stop()` comes, and what `recent()` replies. `Idle` is proved against
    the trace semantics `Run`.
- `coordinator.dfy` (module `Coordinator`): the `__main__` logic.
  - The fan-out gives one watcher per (account, folder).
  - One coalescing cycle runs over integer-timestamped arrivals; `Drained`
    is the number of signals the cycle takes.
  - The batch becomes `mbsync` arguments.

Where the code and its description differ, the model follows the code:

- The drain after the first signal is a sliding gap. Each further `get`
  waits one second, so a chain of signals one second apart keeps the batch
  open. It is not a fixed three-second window: the comment in the source
  says three seconds, the code waits one.
  `Coordinator.TwoSecondGapSplits` shows a signal two seconds after the
  first missing the batch, where a fixed three-second window would have
  taken it.
- `connect` calls only `matchCertificate` (host, then hostname).
  `verifyCertificate` (subject, then digest) is modelled but never called.
- After an unexpected abort, `idle` does not go straight back to `connect`.
  It waits for the event and then calls `recent()` on the dead connection.
  A wait that nothing wakes blocks for ever (`Exit.Blocked`), and an
  exception from `recent()` ends the thread (`Exit.RecentRaised`). The
  connection is re-established on the next round only if the wait returns
  and `recent()` answers (`ImapIdle.AbortForcesReconnect`).
- In the fan-out, an account missing `Host`, `User`, `Pass`/`PassCmd` or
  `CertificateFile` makes the watcher's constructor raise. If the account
  has a server, the error handler logs it and the account is skipped. If it
  has no server, the handler's own `d["server"]` raises and ends the
  program (`FanOutError.MissingServer`).

## Model

| member | source | states |
|---|---|---|
| MbsyncRc.SecurityOf | mbsyncrc.py:45-49 | `none`, `starttls` and `imaps` map to "None", "starttls" and "explicit-ssl"; every other value has no mapping |
| MbsyncRc.StripPlus | mbsyncrc.py:39 | a leading `+` is removed from the password command and nothing else changes |
| MbsyncRc.Chomp | mbsyncrc.py:42 | one trailing newline is removed from the command output; output without one is kept |
| MbsyncRc.ParseStep | mbsyncrc.py:16-54 | one line keeps the parser state well-formed: the current section always has an entry and the key order is duplicate-free |
| MbsyncRc.ParseLines | mbsyncrc.py:15-54 | any prefix of the file leaves the parser state well-formed |
| MbsyncRc.ParseLine | mbsyncrc.py:16-54 | the imperative loop body does exactly what the state machine does for that line, errors included |
| MbsyncRc.ParseSections | mbsyncrc.py:14-54 | the line loop ends in the state-machine result for the whole file, or with the first exception |
| MbsyncRc.AttachMailboxes | mbsyncrc.py:55-57 | each dictionary-filter key gets its folder list, in key order; a key without a parsed section is an error |
| MbsyncRc.AttachInbox | mbsyncrc.py:58-60 | without a dictionary filter every entry gets `["INBOX"]` and the keys stay the same |
| MbsyncRc.Parse | mbsyncrc.py:10-61 | `parse` returns the specified configuration or raises the specified exception |
| MbsyncRc.ParseFailureIsFinal | mbsyncrc.py:15-54 | once a line raises, the lines after it cannot change the outcome |
| MbsyncRc.Significant | mbsyncrc.py:16-23 | the lines the parser acts on contain no comment and no line of fewer than two tokens |
| MbsyncRc.SkippedLinesIgnored | mbsyncrc.py:16-23 | removing comment lines and lines of fewer than two tokens does not change the result |
| MbsyncRc.KeywordCaseIgnored | mbsyncrc.py:21 | two lines whose keywords differ only in case have the same effect |
| MbsyncRc.StepKeys | mbsyncrc.py:24-29 | a line adds a key exactly when it is an admitted IMAPStore/IMAPAccount header with that name, and never removes one |
| MbsyncRc.ParsedKeys | mbsyncrc.py:24-29 | the parsed dictionary's keys are exactly the names of admitted IMAP headers in the file |
| MbsyncRc.SectionHeaderLine | mbsyncrc.py:24-29 | an admitted IMAP header opens a fresh empty entry, even resetting an existing one, and keeps its key position; any other header clears the current section |
| MbsyncRc.LinesOutsideSectionsIgnored | mbsyncrc.py:30-54 | without an active section every non-header line leaves the state unchanged |
| MbsyncRc.PlainSettingLine | mbsyncrc.py:30-54 | in an active section, Host, Port, User, Pass and CertificateFile store their argument in server, port (as text), user, passwd and certfile of the current entry only |
| MbsyncRc.SettingOverwrites | mbsyncrc.py:30-43 | a setting of the same field applied after another gives what the second alone gives |
| MbsyncRc.LaterSettingWins | mbsyncrc.py:30-43 | in a section, a later Host/Port/User/CertificateFile line, or a later Pass/PassCmd, overwrites the earlier one |
| MbsyncRc.SslTypeLine | mbsyncrc.py:44-52 | SSLType sets the mapped security mode and raises on an unknown value; it fills in port 993 for imaps and 143 otherwise only when no port was set |
| MbsyncRc.PassCmdLine | mbsyncrc.py:38-43 | PassCmd runs its argument without a leading `+` and stores the output without its newline; an empty argument, a failed command and empty output raise |
| MbsyncRc.MailboxesAttached | mbsyncrc.py:55-57 | the filter attachment succeeds iff every filter key was parsed, and then changes only the folders of those keys |
| MbsyncRc.InboxAttached | mbsyncrc.py:58-60 | the INBOX attachment changes only the folders of the given keys and keeps the key order |
| MbsyncRc.ParseOutcome | mbsyncrc.py:24-61 | the result has one entry per admitted IMAP header, each with its folder list; with a dictionary filter it succeeds iff every filter key was opened, and then its keys are exactly the filter keys |
| MbsyncRc.SectionAfter | mbsyncrc.py:79-84 | the section `generate` is in always has a password |
| MbsyncRc.Kept | mbsyncrc.py:71-72 | dropping comment lines never lengthens the file |
| MbsyncRc.Generate | mbsyncrc.py:67-92 | the written stream is the specified rewrite of the file |
| MbsyncRc.GeneratedLineByLine | mbsyncrc.py:70-91 | one output line per non-comment input line, in order; each is that line rewritten in the section it lies in |
| MbsyncRc.OnlyPassCmdLinesChange | mbsyncrc.py:85-91 | every output line is its input line verbatim, or a PassCmd line turned into `pass <password>` for a named section in the map |
| MbsyncRc.SectionIsLastHeader | mbsyncrc.py:79-84 | the section in force is set by the last header alone: its name if it is an IMAP section with a password, none if it is any other header or there is no header |
| MbsyncRc.NoPasswordsKeepsFile | mbsyncrc.py:70-91 | with an empty password map the output is the file without its comment lines |
| MbsyncRc.Passwords | mbsyncrc.py:96-99 | the password map has exactly the configuration's keys, each mapped to that entry's passwd; otherwise the error names an entry without one |
| MbsyncRc.MbsyncArgv | mbsyncrc.py:112-114 | the command line is `/usr/bin/mbsync -c <fifo>` followed by the parameters |
| MbsyncRc.CallMbsync | mbsyncrc.py:96-114 | the invocation succeeds iff every entry has a password; it carries that password map, the command line, and the rewritten configuration as the document |
| ImapIdle.MatchCertificate | imapfetch-idle.py:74-78 | a host other than the server is rejected with "Hosts do not match" before any hostname matching; otherwise the certificate is accepted iff the hostname matches |
| ImapIdle.VerifyCertificate | imapfetch-idle.py:80-91 | a subject mismatch gives "Subjects don't match" whatever the digests; equal subjects with different digests give "Digests don't match"; no error iff both are equal |
| ImapIdle.ConnectResult | imapfetch-idle.py:93-124 | any mode other than starttls/explicit-ssl is refused; the connection succeeds iff the handshake completes, the certificate is accepted, the login succeeds and select answers "OK"; login and select are reached only after an accepted certificate |
| ImapIdle.NoneSecurityRefused | imapfetch-idle.py:95-108 | the security mode "None" that `parse` gives for `SSLType none` is refused |
| ImapIdle.CountNew | imapfetch-idle.py:173-175 | the count is at most the number of items; it is 0 iff no item is non-empty and not "0", and equals the number of items iff all are |
| ImapIdle.RecentCount | imapfetch-idle.py:171-175 | a missing reply counts 0; otherwise the count is positive iff some item is non-empty and not "0" |
| ImapIdle.ImapSocket.constructor | imapfetch-idle.py:57-72 | a new watcher is not connected, not stopped, its event is clear and it has enqueued nothing |
| ImapIdle.ImapSocket.Connect | imapfetch-idle.py:93-124 | the outcome is the specified connect outcome, and `connected` becomes true only on success |
| ImapIdle.ImapSocket.Stop | imapfetch-idle.py:129-131 | `deathpill` and the event are both set |
| ImapIdle.ImapSocket.Idle | imapfetch-idle.py:136-179 | the loop ends in the state and with the exit the trace semantics give for the same rounds |
| ImapIdle.RunEndsForGood | imapfetch-idle.py:137-169 | once the loop has ended, further rounds change nothing |
| ImapIdle.RunSplits | imapfetch-idle.py:137 | running two pieces of trace is running the first, then the second from where the first left off |
| ImapIdle.FailedConnectNeverRetried | imapfetch-idle.py:138-144 | a failed connect ends the watcher, whatever the rest of the trace holds |
| ImapIdle.StopEndsTheLoop | imapfetch-idle.py:129-169 | a round with a `stop()` anywhere in it is the last round the loop runs |
| ImapIdle.StopBeforeWakeSilencesRound | imapfetch-idle.py:155-169 | a round whose `stop()` comes before the check after the wait enqueues nothing and ends the loop |
| ImapIdle.StopSilencesTheRest | imapfetch-idle.py:137-179 | after such a stop, the queue holds only what the earlier rounds enqueued |
| ImapIdle.RoundQueue | imapfetch-idle.py:176-179 | one round leaves the queue as it was or appends the watcher's own (name, directory) once |
| ImapIdle.SignalsAreOwn | imapfetch-idle.py:176-179 | a watcher only appends to the queue, only its own (name, directory), and at most once per round |
| ImapIdle.WakeUpEnqueuesAtMostOne | imapfetch-idle.py:171-179 | a completed wake-up appends exactly one (name, directory) when the recent count is positive and nothing otherwise |
| ImapIdle.AbortForcesReconnect | imapfetch-idle.py:138-161 | an abort without a pending stop drops the connection, so the next round connects again and its connect failure ends the watcher |
| Coordinator.SocketFor | imapfetch-idle.py:196-201 | a watcher gets the account name, its settings without the folders, the folder as its directory, and the defaults starttls and port 143 |
| Coordinator.AccountLoop | imapfetch-idle.py:196-204 | the folder loop of one account gives the specified watchers or error |
| Coordinator.FanOut | imapfetch-idle.py:195-204 | the account loop gives the specified watchers, accounts in configuration order and folders in list order, or the first error |
| Coordinator.FanOutErrorPersists | imapfetch-idle.py:194-204 | an error in one account is the error of the whole fan-out |
| Coordinator.FanOutSucceeds | imapfetch-idle.py:195-204 | the fan-out succeeds iff every account has a folder list and every incomplete account with folders has a server |
| Coordinator.FanOutPairs | imapfetch-idle.py:195-201 | every watcher belongs to a folder of a complete account, and every folder of a complete account has its watcher |
| Coordinator.DrainFrom | imapfetch-idle.py:228-237 | the drain takes signals from position `j` on and never more than the queue holds |
| Coordinator.Drained | imapfetch-idle.py:216-237 | a cycle never takes more signals than are pending |
| Coordinator.DrainFromGaps | imapfetch-idle.py:228-237 | each drained signal arrives within one second of the previous reception, and the drain stops at the first that does not |
| Coordinator.DrainStopsAtFirstGap | imapfetch-idle.py:216-240 | a cycle takes nothing iff no signal arrives within 180 seconds; otherwise it takes every signal up to the first gap longer than one second and stops there |
| Coordinator.Target | imapfetch-idle.py:246 | the argument for a signal is `account:mailbox` and is never the all-channels flag |
| Coordinator.Targets | imapfetch-idle.py:244-246 | one argument per listed signal, in the same order |
| Coordinator.TargetsOfEnumeration | imapfetch-idle.py:244-246 | every signal of the batch has its argument, and every argument belongs to a signal of the batch |
| Coordinator.BatchArgs | imapfetch-idle.py:242-249 | the arguments are `-a` alone iff the batch is empty, else one `account:mailbox` per distinct signal in the set's iteration order |
| Coordinator.Cycle | imapfetch-idle.py:213-250 | a cycle starts from an empty set, takes the drained signals, deduplicates them, and calls mbsync with one target per distinct signal or `-a` |
| Coordinator.RepeatedSignalCoalesces | imapfetch-idle.py:213-232 | the same signal twice, one second apart, makes a batch of one |
| Coordinator.TwoSecondGapSplits | imapfetch-idle.py:227-237 | a signal two seconds after the first is left for the next cycle |
| Coordinator.ChainKeepsDraining | imapfetch-idle.py:228-237 | signals one second apart keep the drain going past three seconds |
| Coordinator.QuietQueueSyncsAll | imapfetch-idle.py:216-220 | a first signal arriving more than 180 seconds after the start is not taken; one at exactly 180 is |

## Left out

- Threads, `Event`, `Queue`, `join`, `time.sleep` and the `KeyboardInterrupt` shutdown are concurrency. The queue is a sequence. A `stop()` from another thread is a point in a round of the idle trace. Time is integer seconds.
- The order in which `stop()` sets `deathpill` and then the event matters only between threads. `ImapIdle.ImapSocket.Stop` sets both, and the model does not capture an interleaving between the two writes.
- imaplib2 networking, the STARTTLS/IMAPS handshakes, `ssl.match_hostname`, and OpenSSL certificate loading and digests are foreign calls. Certificate subjects and digests are abstract values. The hostname matcher's answer and the outcomes of handshake, login and select are inputs in `ConnectEnv`.
- The `M` connection object is not modelled. Its only effect on the logic is whether `connected` is set.
- File and process I/O is left out and replaced by inputs:
  - reading `~/.mbsyncrc` becomes the line sequence;
  - `subprocess.check_output` for `PassCmd` becomes the `run` parameter;
  - `mkdtemp` and `mkfifo` become the `fifo` name parameter;
  - the writer thread, `subprocess.call` for mbsync and the cleanup are not modelled.
- `shlex.split` quoting rules are a foreign library. Tokens are given with each line.
- MbsyncRc.Parse: keywords and `SSLType` values are lower-cased on ASCII letters only, where Python's `str.lower` also folds other letters.
- `bytes.decode` of the password command's output is not modelled. The output is taken as a string.
- Logging and printing are left out. So are the commented-out notify-send block with its `boxes` list and the unused `enabled` list.
- The process exit when the fan-out produces no watcher is not modelled, and neither is the initial `call_mbsync(conf)` before the fan-out. That call is `MbsyncRc.CallMbsync` with `MbsyncRc.DefaultParams`.
- Only one coalescing cycle is modelled, not the unbounded main loop that repeats it.
