# Gearman client, worker and administrative client — a Dafny model

This project models the core of a PHP library that speaks the Gearman job-server protocol:

- **Task** (`src/Task.php`): one job to run. It holds the function name, the argument, a uniqueness key, the job type, the handle the server assigns, a finished flag, a result, and three ordered lists of callbacks (complete, fail, status).
- **Set** (`src/Set.php`): a batch of tasks. The tasks are keyed by uniqueness key in insertion order. It also holds a count of tasks still expected to finish, the table from server handle to uniqueness key, and one optional batch callback.
- **Client** (`src/Client.php`): the submitting side.
  - `addServer`/`addServers` build the server list.
  - `runSet` connects to every registered server and submits one task per loop pass. It dispatches each decoded response (`job_created`, `work_complete`, `work_status`, `work_fail`, `error`) until the set reports finished or the timeout elapses.
  - The `do*` methods run a one-task set.
- **Worker** (`src/Worker.php`): the executing side.
  - It keeps the server list, the registered functions, three lists of callbacks, and the tables of open connections and of servers waiting for a retry.
  - `work()` connects, announces the functions and then loops. Each pass:
    1. Asks every open connection for a job and runs it (`doWork`).
    2. Sends `pre_sleep` and waits when nothing was done.
    3. Retries servers whose backoff has passed.
    4. Announces the functions again after a successful retry.
    5. Asks the monitor whether to stop.
- **Manager** (`src/Manager.php`): the administrative client. It covers the text protocol commands `version`, `shutdown`, `workers`, `maxqueue` and `status`, with their one-line and multi-line replies and the `ERR code message` error line.

The model is purely functional:

- Each PHP object is an immutable datatype and each method a function from the old state to the new one.
- Errors that the source throws are `Err` values of a `Result`.
- PHP's ordered arrays are `OrderedMaps.OMap`, a key sequence plus a map. Writing an existing key keeps its position.
- Callbacks are user code. Each invocation is recorded as an event with the arguments it receives.
- Everything the library reads from outside is an explicit input:
  - the outcome of each connection attempt (a set of reachable servers);
  - what `socket_select` reports readable and what `Connection::read` decodes (a list of deliveries per pass);
  - the replies a worker reads and the handler's outcome (a `Turn` per server per pass);
  - the clock;
  - the `array_rand` pick;
  - the reply lines a manager reads;
  - the worker's monitor.

Module layout:

- `errors.dfy`: `Option`, `Result` and the exceptions of the library.
- `strings.dfy`: PHP's `trim`, `explode`/`implode` and integer rendering; PHP 8's reading of numeric strings (whitespace, sign, digits, fraction, exponent), with the coercion of a string to an `int` parameter and the `(int)` cast built on it; `is_numeric` and `strpos`.
- `ordered_maps.dfy`: PHP arrays used as dictionaries.
- `tasks.dfy`, `task_sets.dfy`, `server_lists.dfy`, `clients.dfy`, `workers.dfy`, `managers.dfy`: one module per source file. The server list is shared by the client and the worker, whose `addServer` code is identical.

## Model

| member | source | states |
|---|---|---|
| Strings.Trim | src/Client.php:90 | the result is no longer than the input and neither starts nor ends with one of " \t\n\r\0\x0B" |
| Strings.TrimEmptyIffBlank | src/Client.php:90-93 | `trim` gives "" exactly when every character is a trim character |
| Strings.TrimIdempotent | src/Manager.php:324 | trimming twice is trimming once |
| Strings.Split | src/Client.php:75 | `explode` always yields at least one piece, so `$explodedServer[0]` always exists |
| Strings.JoinSplit | src/Client.php:79 | joining the pieces of `explode` with the same delimiter gives the original string back |
| Strings.SplitJoin | src/Manager.php:179-180 | splitting the join of delimiter-free pieces on a one-character delimiter gives the pieces back |
| Strings.SplitPiecesFree | src/Manager.php:253 | no piece of a split on one character contains that character |
| Strings.SplitWithoutDelimiter | src/Client.php:79-80 | a string without the delimiter is a single piece, so the port is missing |
| Strings.NatToStringInjective | src/Client.php:103 | distinct ports render as distinct decimal strings |
| Strings.ScanNumber | src/Client.php:80-88 | the number a string starts with is well formed, has at least one digit, and leaves a proper tail of the string |
| Strings.ParseInt | src/Client.php:80-88 | the coercion to `?int $port` refuses a string that does not start with a number, and otherwise accepts exactly when the number truncated toward zero lies in the 64-bit range, giving a value in that range |
| Strings.IntCast | src/Client.php:426-427 | the `(int)` cast always gives a 64-bit value |
| Strings.ParseIntToString | src/Client.php:80-82 | every rendered integer PHP can hold coerces back to itself |
| Strings.ParseIntIgnoresTrailing | src/Client.php:80-82 | an integer followed by text that cannot continue it ("4730abc") coerces to that integer when it is in range and is refused otherwise; the cast reads the same integer and saturates at the bounds |
| Strings.ParseIntExponent | src/Client.php:80-82 | digits, 'e' and digits ("1e3") coerce and cast to the integer they denote when it is in range |
| Strings.ParseIntFraction | src/Client.php:80-82 | an integer with a fractional part ("4730.0", "-2.5") coerces and casts to the integer, truncated toward zero |
| Strings.IntCastAgreesWithParseInt | src/Client.php:426-427 | the `(int)` cast gives the coerced value wherever the coercion succeeds, 0 for a string without a number, and the bound on the number's side for an out-of-range number |
| Strings.NoNumberAtOtherChar | src/Manager.php:331 | a string starting with neither whitespace, a sign, a digit nor a point holds no number: the coercion refuses it and the cast gives 0 |
| Strings.IntToStringIsNumeric | src/Manager.php:214 | every rendered integer passes `is_numeric`, however large |
| Strings.IndexOf | src/Manager.php:98 | `strpos` returns the first position of the character, and none exactly when it is absent |
| OrderedMaps.RemoveAfterPut | src/Worker.php:179-196 | inserting a new key and unsetting it restores the array |
| OrderedMaps.PutExisting | src/Set.php:108-109 | overwriting a present key keeps the key order and changes only that value |
| Tasks.NewTask | src/Task.php:207-234 | a type above 7 is refused with that type; otherwise the function, argument and type are stored, the key is the given id or the derived one, the epoch is kept only for epoch jobs, and the task starts unfinished with no handle, result or callbacks |
| Tasks.NewTaskFrom | src/Task.php:207-210 | a string argument is refused by the `array $arg` parameter type; an array argument constructs as `NewTask` |
| Tasks.DerivedUniqIsDeterministic | src/Task.php:217-218 | two tasks from the same function, argument and type without an id get the same key |
| Tasks.GetCallbacks | src/Task.php:265-268 | the table has exactly the three kinds, each with its callbacks in order |
| Tasks.AttachCallback | src/Task.php:245-258 | an unknown kind is refused; otherwise the callback is appended to that kind only and nothing else changes |
| Tasks.AttachKeepsOrder | src/Task.php:255 | two callbacks attached in turn are listed in that order |
| Tasks.Complete | src/Task.php:280-292 | the task is finished with the result, nothing else changes, and each complete callback runs once in order with function, handle and result |
| Tasks.CompleteOverwrites | src/Task.php:280-283 | a second completion replaces the first result and runs the callbacks again |
| Tasks.Fail | src/Task.php:301-311 | the task is finished with its result unchanged and each fail callback runs once in order with the finished task |
| Tasks.Status | src/Task.php:324-339 | the task is unchanged and each status callback runs once in order with function, handle, numerator and denominator |
| Tasks.FailAfterCompleteKeepsResult | src/Task.php:301-303 | a failure after a completion keeps the task finished with the completed result |
| TaskSets.EmptySet | src/Set.php:80-89 | a new set is well formed, empty and has a zero count |
| TaskSets.AddTask | src/Set.php:106-112 | a task whose key is present changes nothing; a new one is appended under its key and the count goes up by one |
| TaskSets.NewSetKeepsFirstInsertion | src/Set.php:95-100 | a set built from a list holds its distinct keys in order of first appearance, each with the first task carrying it, with a count equal to the number of keys and no handles or callback |
| TaskSets.NewSetKeys | src/Set.php:97-98 | the keys of a built set are the first occurrences of the tasks' keys and the count is their number |
| TaskSets.NewSetFirstTask | src/Set.php:108 | the task filed under a key is the first one listed with it |
| TaskSets.FirstOccurrencesDistinct | src/Set.php:108-110 | the kept keys are pairwise distinct and as many as the distinct keys listed |
| TaskSets.CountOfNewSet | src/Set.php:183-186 | `count()` after construction is the number of distinct keys among the tasks |
| TaskSets.GetTask | src/Set.php:119-130 | an unknown handle and a handle without a task are refused with their own errors; otherwise the task under the handle's key is returned |
| TaskSets.GetTaskMatchesHandle | src/Set.php:129 | in a well-formed set, the returned task carries the key the handle was recorded against |
| TaskSets.Results | src/Set.php:146-149 | one result per task, in set order |
| TaskSets.Finished | src/Set.php:139-155 | true exactly when the count is zero; only then does the batch callback run, once, with every result in set order |
| TaskSets.AttachCallback | src/Set.php:162-168 | the set's one callback slot is replaced and nothing else changes |
| TaskSets.AttachReplaces | src/Set.php:167 | attaching twice keeps only the second callback |
| ServerLists.PortGuardRejectsOnlyZero | src/Client.php:98 | `!$port > 0` rejects port 0 and no other port, negative ones included |
| ServerLists.AddServer | src/Client.php:88-112 | a host that trims to "" or "0" is refused; port 0 is refused; the call succeeds exactly when the "host:port" key (default port 4730) is new, and then appends that key |
| ServerLists.AddEntry | src/Client.php:78-83 | one list entry registers exactly one more server after the existing ones |
| ServerLists.AddEntryPort | src/Client.php:79-82 | an entry registers the host before its first ':' with the port the next piece coerces to, or no port without a ':'; a piece that does not coerce is refused with that piece |
| ServerLists.AddEntryLeadingNumeric | src/Client.php:79-82 | "host:4730abc" registers the host with port 4730: text after the port's number is dropped |
| ServerLists.AddEntryKey | src/Client.php:79-82 | the key an entry registers is its trimmed host and its port or 4730 |
| ServerLists.AddServerList | src/Client.php:72-86 | the servers registered before the first failure stay registered, in order; without a failure every entry adds one |
| ServerLists.AddServerListKeys | src/Client.php:78-83 | without a failure the list gains the entries' keys in entry order |
| ServerLists.AddServerListStopsAt | src/Client.php:78-83 | when entry i fails, the result is the servers the entries before it registered together with entry i's error; later entries are never tried |
| ServerLists.AddServerListFails | src/Client.php:78-83 | a reported error comes from some entry at which registration fails |
| ServerLists.HostZeroRejected | src/Client.php:91-92 | the host " 0 " is refused as empty |
| ServerLists.DefaultPortIsExplicit4730 | src/Client.php:95-96 | a host registered without a port cannot be registered again with 4730 |
| Clients.NewClient | src/Client.php:62-65 | a new client has no servers, connections or packets |
| Clients.AddClientServer | src/Client.php:88-112 | the client's `addServer` succeeds and fails exactly as the shared server-list rule does |
| Clients.SubmitCommandClasses | src/Client.php:304-312 | the seven types map to seven distinct commands, the fire-and-forget types to the `_bg` and epoch commands, and any other type to `submit_job` |
| Clients.SubmitParams | src/Client.php:314-324 | the packet carries the function, key and argument, plus the epoch exactly for epoch jobs |
| Clients.SubmitTask | src/Client.php:302-335 | with no connection it fails; otherwise one packet is written to the picked connection and the task's key joins the end of that connection's queue |
| Clients.Store | src/Client.php:423 | writing back a changed task keeps the set's keys, count, handles and callback |
| Clients.Acknowledge | src/Client.php:434-442 | `job_created` on a connection with an empty queue fails; otherwise the oldest queued task gets the handle, the handle is recorded against its key, and a plain background task is marked finished |
| Clients.HandleResponse | src/Client.php:413-448 | an unknown handle fails before anything else; `error` and unknown commands fail; `work_complete` and `work_fail` decrease the count, update only that task and keep the handle map, and run the task's callbacks; `work_status` runs status callbacks with the `(int)` casts; the set's keys and callback never change |
| Clients.Reachable | src/Client.php:345-350 | the reachable servers, in registration order |
| Clients.OpenedAt | src/Client.php:352 | the i-th connection opened goes to the i-th reachable server with the i-th fresh id |
| Clients.ConnectEach | src/Client.php:345-353 | unreachable servers are unregistered and nothing else is; one id is used per reachable server |
| Clients.ConnectEachOpens | src/Client.php:352 | the pool gains one connection per reachable server, in registration order |
| Clients.ConnectAllKeepsReachable | src/Client.php:345-353 | afterwards the registered servers are exactly the reachable ones, and the pool is non-empty exactly when it was or some registered server is reachable |
| Clients.SocketTimeout | src/Client.php:359-363 | the select timeout is 10 without a timeout and the timeout capped at 10 otherwise |
| Clients.Deliver | src/Client.php:395-400 | dispatching a pass's responses keeps the set well formed with its keys and callback, and never runs the batch callback |
| Clients.SubmitNext | src/Client.php:377-389 | while fewer than the captured count were submitted, the next captured key is submitted and the counter advances, and a fire-and-forget task is marked finished with the count decreased; a missing key or an empty pool fails |
| Clients.PassStep | src/Client.php:366-400 | a pass records the start time on its first timed pass, submits at most one task and dispatches its responses |
| Clients.Loop | src/Client.php:365-401 | the loop keeps the set well formed with its keys and callback; an unfinished set whose timeout has elapsed since the recorded start stops with nothing changed; a run stops on the timeout only with a timeout, and never at the pass that records the start |
| Clients.RunSet | src/Client.php:343-402 | connecting and looping keeps the set's keys; a run never times out without a timeout, and with one only after a first pass went through |
| Clients.CreateSetAsWrittenAlwaysFails | src/Client.php:283 | as written, every `do*` call fails before anything is sent, because the string workload reaches `Task`'s `array $arg` parameter |
| Clients.CreateSet | src/Client.php:272-289 | a type above 7 is refused; otherwise a one-task set with the given or generated id, the workload and the type |
| Clients.RunSingleTaskSet | src/Client.php:183-189 | corrected (Findings row 1): the run is that of `runSet` without a timeout, and the answer is the first task of the set after the run |
| Clients.DoJob | src/Client.php:142-266 | corrected (Findings row 1): a job type above 7 is refused before anything is sent; types up to 7 run the one-task set `createSet` builds through `runSingleTaskSet`, which never times out |
| Clients.AcknowledgeInOrder | src/Client.php:434-441 | the n-th `job_created` read on a connection gives its handle to the n-th task submitted there and leaves the count alone |
| Clients.HandlesKept | src/Client.php:441 | acknowledging other handles leaves a recorded handle's entry as it was |
| Clients.LoopSetCalledLast | src/Client.php:365 | the batch callback runs at most once per run, and only as the run's last event, when the set reported finished |
| Clients.LoopSubmitsOnePerPass | src/Client.php:377-389 | a run submits at most one task per pass and never more than the captured count |
| Clients.LoopSendsSubmissions | src/Client.php:379 | a run sends nothing but its submissions, one packet each, after what was already sent |
| Clients.LoopSubmitsInKeyOrder | src/Client.php:356-379 | the submissions follow the order of the keys captured when the run started |
| Clients.LoopFinishesAfterPass | src/Client.php:365 | a pass after which the set reports finished is the last one |
| Clients.BackgroundJobReturnsAtOnce | src/Client.php:202-208 | corrected (Findings row 1): a fire-and-forget job with a reachable server returns after one pass, with one submit packet and its task finished |
| Clients.OneBackgroundTaskOnePass | src/Client.php:380-386 | a one-task background set finishes in one pass |
| Clients.BackgroundSubmission | src/Client.php:377-388 | submitting the background task sends its submit command and brings the count to zero |
| Clients.NoResponsesNoProgress | src/Client.php:391-400 | once everything is submitted and no response arrives, the loop never reports the set finished and changes nothing |
| Clients.ForegroundJobWaits | src/Client.php:142-145 | corrected (Findings row 1): a foreground job without a response to read never finishes: the run ends only when its passes run out |
| Workers.NewWorker | src/Worker.php:92-99 | a new worker is well formed with the given or generated id and no servers, functions, callbacks or packets |
| Workers.AddWorkerServer | src/Worker.php:122-146 | the worker's `addServer` follows the shared server-list rule |
| Workers.AddWorkerServers | src/Worker.php:106-120 | the worker's `addServers` reports the shared list rule's error and keeps whatever the list registered, failure or not; nothing else changes |
| Workers.AddWorkerServersFails | src/Worker.php:106-120 | when entry i fails, the worker keeps the servers of the entries before it and reports entry i's error |
| Workers.AddFunction | src/Worker.php:173-185 | a registered name is refused; otherwise the function is appended with its callback and optional timeout and nothing else changes |
| Workers.Unregister | src/Worker.php:190-199 | an unknown name is refused; otherwise its entry is removed, the other names keep their order, and nothing else changes |
| Workers.UnregisterAll | src/Worker.php:204-209 | every function is removed and nothing else changes |
| Workers.UnregisterUndoesAdd | src/Worker.php:173-199 | adding a new function and unregistering it gives the worker back |
| Workers.UnregisterKeepsOthers | src/Worker.php:196 | unregistering one function keeps every other one with its entry |
| Workers.AttachCallback | src/Worker.php:449-458 | an unknown kind is refused; otherwise the callback is appended to that kind only |
| Workers.AnnouncementsCover | src/Worker.php:311-321 | every function is announced with `can_do` on every open connection, one packet per pair and nothing else, so a timeout never reaches the server |
| Workers.Register | src/Worker.php:311-321 | announcing only appends packets |
| Workers.RegisterAnnounces | src/Worker.php:313-319 | registering sends `can_do` for every function on every open connection |
| Workers.ConnectOne | src/Worker.php:294-300 | a reachable server is opened and told the worker's id; an unreachable one is stamped for a retry |
| Workers.ConnectEachServer | src/Worker.php:293-301 | connecting opens exactly the reachable servers and stamps the others with the time |
| Workers.ConnectEachSends | src/Worker.php:296 | the only packets connecting sends are `set_client_id` with the worker's id to opened servers |
| Workers.ConnectToAllServers | src/Worker.php:291-306 | it fails exactly when no registered server is reachable; otherwise every server is open or waiting, according to reachability |
| Workers.FirstReply | src/Worker.php:342-345 | the position of the first reply that is not `noop` |
| Workers.ArgOf | src/Worker.php:357-364 | no argument unless a non-empty one is given; JSON-decoded when decoding succeeds and raw otherwise |
| Workers.SentResult | src/Worker.php:371-373 | a falsy handler result ("" or "0") is sent as "", any other as is |
| Workers.DoWork | src/Worker.php:338-383 | it always sends `grab_job`; work done exactly when a registered function's job was assigned and the handler returned or threw a job exception, answered with exactly one `work_complete` or `work_fail` when callbacks do not throw; no work on `no_job`; it raises on a lost connection or an unexpected reply, and anything it raises is a caught exception, a job for an uncallable function or an engine error; start callbacks run before the handler |
| Workers.DoWorkSameJobs | src/Worker.php:338-383 | `doWork` depends only on the functions and callbacks |
| Workers.Drop | src/Worker.php:237-239 | a failed connection is removed and stamped for a retry; nothing else changes |
| Workers.ServeOne | src/Worker.php:234-244 | one connection's turn keeps its packets; a job done sets the flag and the last-job time; an exception drops the connection; an engine error escapes |
| Workers.Absorb | src/Worker.php:236-244 | the outcome of one `doWork` is applied: packets written, job flag and clock set, an exception dropping only that connection |
| Workers.ServeAll | src/Worker.php:233-245 | the first `foreach` keeps the worker well formed and sends no `pre_sleep` |
| Workers.ServeAllServer | src/Worker.php:233-240 | a server whose `doWork` raised an exception is dropped and stamped with the pass's time; every other server keeps its state |
| Workers.ServeAllWorked | src/Worker.php:241-244 | the pass did a job exactly when some server's `doWork` did |
| Workers.ServeAllLastJob | src/Worker.php:241-243 | the last-job time moves only when a job was done, and then to the time read after one of them |
| Workers.ServeAllEscapes | src/Worker.php:235-240 | the pass fails exactly when some server's `doWork` raised an engine error |
| Workers.RetryOne | src/Worker.php:259-271 | a due server that answers is opened, leaves the retry table and is told the id; a due one that does not is stamped again; one that is not due is untouched |
| Workers.Reopen | src/Worker.php:262-266 | a reopened server is open, no longer waiting, and told the worker's id |
| Workers.Postpone | src/Worker.php:267-268 | an unreachable due server gets the pass's time as its stamp |
| Workers.RetryAll | src/Worker.php:258-271 | the retry `foreach` keeps the worker well formed, only appends packets and sends no `pre_sleep` |
| Workers.RetryAllServer | src/Worker.php:259-270 | a waiting server is retried only when strictly more than 5 seconds have passed, and ends open or restamped accordingly |
| Workers.RetryAllChanged | src/Worker.php:258-264 | the retry flag is set exactly when some due server was reached |
| Workers.RetryChangedWhenDue | src/Worker.php:260-264 | a due server that is reached sets the retry flag |
| Workers.PreSleeps | src/Worker.php:249-251 | one `pre_sleep` per open connection, in order |
| Workers.Doze | src/Worker.php:247-256 | `pre_sleep` goes to every open connection exactly when the pass sleeps, and nothing else changes |
| Workers.Reannounce | src/Worker.php:278-280 | the functions are announced again exactly when a retry succeeded |
| Workers.FinishPass | src/Worker.php:247-280 | the rest of a pass keeps the worker well formed and only appends packets |
| Workers.WorkPass | src/Worker.php:229-281 | a pass keeps the worker well formed with its jobs and only appends packets |
| Workers.WorkPassServer | src/Worker.php:233-271 | what a pass does to each server: dropped and stamped on an exception, retried only after the backoff, otherwise unchanged |
| Workers.WorkPassIdle | src/Worker.php:247-256 | a pass is idle exactly when no job was done, a connection is still open and nothing was readable |
| Workers.SurvivorsOpen | src/Worker.php:248 | a connection is still open after the first `foreach` exactly when some open server did not raise |
| Workers.WorkPassPreSleep | src/Worker.php:248-251 | `pre_sleep` goes to a server exactly when no job was done and its connection is still open |
| Workers.WorkPassFails | src/Worker.php:235-237 | a pass fails exactly when some `doWork` raised an engine error |
| Workers.WorkPassLastJob | src/Worker.php:241-243 | the last-job time moves only when a job was done, to the time read after one of them |
| Workers.WorkPassReannounces | src/Worker.php:278-280 | after a successful retry every function is announced on every connection then open |
| Workers.FinishPassReannounces | src/Worker.php:262-280 | a reached due server leads to the announcement of every function on every open connection |
| Workers.WorkLoop | src/Worker.php:229-285 | the loop runs one pass per tick until the monitor answers true, which stops it after that pass, or an engine error ends it |
| Workers.Work | src/Worker.php:214-286 | without a reachable server `work()` fails with "no server connected"; with one the loop runs, and it fails only with an error `doWork` raised and `work()` does not catch; otherwise every server ends open or waiting and the functions keep their entries |
| Workers.DefaultMonitorNeverStops | src/Worker.php:219-221 | without a callable monitor the loop runs every pass it is given |
| Workers.EagerMonitorStopsAtOnce | src/Worker.php:282-284 | a monitor that always answers true stops the loop after the first pass |
| Managers.ParseServer | src/Manager.php:98-103 | a ':' after the first character splits host from port; no ':', or one in first position, gives the whole string and the default port |
| Managers.ParseServerRoundTrip | src/Manager.php:98-99 | "host:port" with a non-empty colon-free host and a colon-free port parses back to them |
| Managers.LeadingColonIsHost | src/Manager.php:98 | a ':' in first position is not a separator |
| Managers.PortNumber | src/Manager.php:98-105 | the port `fsockopen` receives: the default 4730, or the port text coerced to `int`, nothing where the coercion raises a TypeError |
| Managers.NewManager | src/Manager.php:96-114 | port text that does not coerce to `int` is refused before any connection is tried; otherwise a failed connection is refused with the host, and a new manager starts not shut down with nothing written |
| Managers.NewManagerPort | src/Manager.php:98-105 | "host:abc" and "host:" are refused whether or not the server is reachable; "host:4730", and a bare host, connect exactly when the server is reachable |
| Managers.SendCommand | src/Manager.php:272-281 | refused after a shutdown; otherwise exactly the command and CR LF are written |
| Managers.SendCommandWritesFrame | src/Manager.php:278-280 | what is written is the command framed by CR LF |
| Managers.ErrorWords | src/Manager.php:326 | the code and message are the second and third space-separated words |
| Managers.CheckForError | src/Manager.php:322-333 | corrected: an error line (trimmed, starting with "ERR") yields its code and message; any other line passes |
| Managers.CheckForErrorReadsWords | src/Manager.php:326-329 | an error line's code is its second word and its message only its third |
| Managers.CheckForErrorAsWritten | src/Manager.php:322-333 | as written: a code PHP cannot coerce to `int` raises a TypeError instead of the server's error |
| Managers.UrlSafePrefix | src/Manager.php:328 | the longest prefix of the code made of the characters `urlencode` copies unchanged |
| Managers.IntegerCodeCoerces | src/Manager.php:328-331 | a code that is a rendered 64-bit integer coerces to `int $code` |
| Managers.LetterCodeNotCoerced | src/Manager.php:328-331 | a code starting with a letter does not coerce |
| Managers.LetterCodeLineRaises | src/Manager.php:324-331 | the line "ERR <code> <message>" with a code starting with a letter raises a TypeError |
| Managers.WordCodeRaisesTypeError | src/Manager.php:328-331 | a well-formed error line whose code does not coerce raises a TypeError |
| Managers.UnknownCommandRaisesTypeError | src/Manager.php:331 | the server's reply to an unknown command raises a TypeError |
| Managers.CheckForErrorAgreesOnNumericCodes | src/Manager.php:328-331 | the corrected and as-written readings agree exactly on coercible codes |
| Managers.RecvCommand | src/Manager.php:295-309 | corrected (Findings row 2): an error line fails with its error, ".\n" ends the reply with the text before it, and lines that run out fail |
| Managers.DotLineIsNoError | src/Manager.php:300-301 | the terminator is not an error line |
| Managers.RecvCommandUpTo | src/Manager.php:298-305 | plain lines followed by ".\n" are read as their text, whatever follows |
| Managers.RecvCommandStopsAtError | src/Manager.php:299-300 | the first error line decides the failure |
| Managers.RecvCommandUnterminated | src/Manager.php:298 | plain lines alone never finish a reply |
| Managers.ErrPrefixIsErrorLine | src/Manager.php:324-325 | a line starting with "ERR" is an error line whatever follows |
| Managers.ConcatFramed | src/Manager.php:305 | the accumulated text of framed lines is the lines with their newlines |
| Managers.SplitLines | src/Manager.php:173 | splitting on "\n" undoes the framing, with one empty piece at the end |
| Managers.RecvFramed | src/Manager.php:295-309 | a reply of plain framed lines closed by ".\n" reads as their text |
| Managers.Exchange | src/Manager.php:127-129 | corrected (Findings row 2): sending and checking a one-line reply fails exactly after a shutdown or on an error line, and otherwise writes exactly one framed command |
| Managers.Version | src/Manager.php:125-132 | corrected (Findings row 2): `version` writes its command and answers the trimmed reply line; an error line is raised as the error it reports, and a shut-down manager refuses |
| Managers.VersionReadsLine | src/Manager.php:128-131 | a version line is read back as the text it carries |
| Managers.Shutdown | src/Manager.php:146-156 | corrected (Findings row 2): the manager counts the server as shut down exactly when it answers "OK", and says so; an error line is raised as the error it reports, and a shut-down manager refuses |
| Managers.SetMaxQueueSize | src/Manager.php:212-227 | corrected (Findings row 2): a non-numeric size is refused first, then a name with a character outside [a-z0-9_]; otherwise the command is written and the answer is whether the reply is "OK"; an error line is raised as the error it reports, and a shut-down manager refuses |
| Managers.IntegerSizeIsNumeric | src/Manager.php:214 | an integer size is numeric, so only the name can be refused |
| Managers.MaxQueueCommandWords | src/Manager.php:222 | an accepted name and a space-free size make a three-word command that reads back as the name and size |
| Managers.StatusRows | src/Manager.php:248-260 | empty pieces are skipped and each line writes its row under its function |
| Managers.Status | src/Manager.php:241-263 | corrected (Findings row 2): `status` writes its command; it succeeds exactly when the reply is read to its "." line, answering the table parsed from the text read, and otherwise fails with the reply's own error; a shut-down manager refuses |
| Managers.StatusListsEveryFunction | src/Manager.php:253-255 | a function is in the table exactly when a non-empty line names it |
| Managers.StatusRowsKeep | src/Manager.php:255 | lines naming other functions leave a function's row alone |
| Managers.StatusLastLineWins | src/Manager.php:255-259 | the row of a function is that of the last line naming it |
| Managers.StatusRowsTrailingEmpty | src/Manager.php:249-251 | the empty piece after the last newline adds nothing |
| Managers.StatusLineRoundTrip | src/Manager.php:253 | a line of four tab-separated fields reads back as the function and its three counts |
| Managers.StatusReadsReply | src/Manager.php:241-263 | a reply of plain lines closed by ".\n" gives the table those lines build |
| Managers.StatusStopsAtErrFunction | src/Manager.php:300 | a function named "ERR..." makes its own status line an error line, and `status()` fails on it |
| Managers.WorkerList | src/Manager.php:174-190 | one entry per non-empty piece, in order |
| Managers.Workers | src/Manager.php:168-193 | corrected (Findings row 2): `workers` writes its command; it succeeds exactly when the reply is read to its "." line, answering the list parsed from the text read, and otherwise fails with the reply's own error; a shut-down manager refuses |
| Managers.WorkerListEach | src/Manager.php:174-190 | without empty pieces there is one entry per line, in line order |
| Managers.WorkerListTrailingEmpty | src/Manager.php:175-177 | a trailing empty piece adds nothing |
| Managers.WorkersReadsReply | src/Manager.php:168-193 | a reply of non-empty plain lines lists one worker per line, in order |
| Managers.AbilitiesRoundTrip | src/Manager.php:182-188 | the abilities part reads back as the words written, except the single word "0", which `empty()` drops |
| Managers.WorkerLineRoundTrip | src/Manager.php:179-188 | a worker line as the server writes it reads back field by field |
| Managers.ZeroAbilityDropped | src/Manager.php:188 | a worker announcing one function named "0" is listed with no abilities |
| Managers.ShutdownIsFinal | src/Manager.php:153-155 | once the server acknowledged a shutdown, every later command is refused before anything is written |
| Managers.RefusedShutdownKeepsManager | src/Manager.php:153 | a reply other than "OK" leaves the manager usable |

## Left out

- The socket layer (`Connection::connect`, `send`, `read`, `blockingRead`, `close`) is not part of this model. Its outcomes are inputs: reachability, decoded deliveries, worker replies, reply lines. A worker connection that yields no reply at all reads as a lost connection.
- Clock reads (`time()`, `microtime()`), `sleep`, `socket_select`'s wait and timeout, `getmypid`/`uniqid`, `array_rand` and `md5(serialize(...))` are inputs.
- `is_callable` checks on callbacks are not modelled: callbacks are opaque identities and the worker's monitor is an optional function.
- `Client::disconnect`, `Worker::endWork`, `Manager::disconnect` and the destructors only close sockets, so they are left out.
- `Worker::jobStatus`, `stopWork` as a method (it is the default monitor `StopWork`), and the `getIterator` of a set are left out.
- `fgets`' 4096-byte line limit is not modelled.
- Managers.CodeCoerces: `urlencode` is modelled only as far as the coercion reads it: the url-safe prefix of the code, which the encoding copies and follows with a '%'. The encoding of the other characters is not modelled.
- Strings.ParseInt: the number is read exactly, where PHP converts a float string to a double first. A float string whose double rounds across an integer or across the range bound can be read differently. The warning for trailing text and the deprecation notice for a fractional part are not modelled.
- Strings.IntCast: a number too large even for a double (infinity) casts to 0 in PHP. Here it saturates like any other out-of-range number.
- Clients.Acknowledge: a connection's queue holds the uniqueness keys of the submitted tasks, where PHP queues the Task objects themselves. A task submitted twice under one key is the same entry here.
- Workers.RetryOne: the reconnect and the `set_client_id` packet are one step, as one reachability input. A connection that opens but whose `set_client_id` send fails is not modelled.
- Workers.SentResult: a handler result is a string here. PHP's falsy test also covers null, false, 0 and empty arrays, and a non-string result reaches `work_complete` through PHP's own conversion.
- Clients.RunSet: the loop is bounded by the passes given. A run whose passes run out stops with `InputExhausted`, where the source keeps looping.
- Managers.RecvCommand: the source loops forever on a connection that closes before ".\n". Here the given lines run out with `Unterminated`.
- Managers.Exchange: a closed connection's `false` from `fgets` is the empty line, which `trim` treats alike.
- Workers.WorkLoop: the loop is bounded by the ticks given. A loop that never stops is modelled by its finite prefixes.
- Workers.Work: it requires a worker with no open or waiting connection, as every worker has before its first `work()`. A second `work()` on the same object is not modelled.
- Workers.Work: the clock reads before the loop are one `start` value.
- Workers.DoWork: the worker's start, complete and fail callbacks are assumed not to throw; only the handler has an outcome. In the source, the `try` at src/Worker.php:366-380 also wraps `callStartCallbacks` and `callCompleteCallbacks`. A `JobException` from a start callback sends `work_fail` without running the handler. One from a complete callback adds `work_fail` after `work_complete`, which makes 3 packets. Any other exception from a complete callback escapes to `work()` after the job was reported complete. The bound `|r.sent| <= 2` and the single answer hold only under this assumption.
- Clients.Deliver: the task and set callbacks run through `call_user_func` in `Task::complete`, `fail` and `status` (src/Task.php:280-339) and in `Set::finished` (src/Set.php:151). They are assumed not to throw and are recorded only as events. An exception thrown there would escape `runSet`; Clients.Loop and Clients.RunSet do not model that.
- Workers.Work: every packet the worker writes (`set_client_id`, `can_do`, `grab_job`, `work_complete`, `work_fail`, `pre_sleep`) is assumed to be sent. In the source, a failed `pre_sleep` send (src/Worker.php:250) is outside any `try` and would escape `work()`.
- Workers.AnnouncementsCover: the `can_do_timeout` branch at src/Worker.php:315 tests a key the array never has, so it is unreachable and only `can_do` is modelled.

## Findings

| source | as written | input that shows it | evidently intended | confidence | as-written member | corrected member |
|---|---|---|---|---|---|---|
| src/Client.php:283 | `createSet` passes the string workload to `new Task`, whose `$arg` parameter is typed `array`, so PHP raises a TypeError | `doNormal("echo", "hello")` | the workload becomes the task's argument and the job is submitted | not executed; high | Clients.CreateSetAsWrittenAlwaysFails | Clients.CreateSet |
| src/Manager.php:326-331 | the url-encoded error code is passed as `Exception`'s `int $code`, so any code that does not start with a number (gearmand's codes are words) raises a TypeError instead of the server's error | the reply line "ERR UNKNOWN_COMMAND Unknown+server+command" | the exception carries the server's code and message | not executed; high | Managers.UnknownCommandRaisesTypeError | Managers.CheckForErrorReadsWords |
