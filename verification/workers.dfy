/** The job-running side (src/Worker.php): the server list, the function
    registry, the three lists of worker callbacks, the pool of open
    connections keyed by server, the retry table of servers whose
    connection failed, and the `work()` loop that grabs and runs jobs.

    The socket layer is not part of this model. Each packet the worker
    writes is appended to a log. The replies `Connection::blockingRead`
    returns, the outcome of each registered handler, what
    `Connection::connect` manages to reach, what `socket_select` reports
    and every reading of the clock are inputs of the pass that uses
    them. User callbacks are logged as events instead of run. */
module Workers {
  import opened Errors
  import opened OrderedMaps
  import opened ServerLists
  import Tasks

  // Callback kinds (Worker::JOB_*)
  const JOB_START: int := 1
  const JOB_COMPLETE: int := 2
  const JOB_FAIL: int := 3

  /** The seconds a failed server waits before it is tried again. */
  const RETRY_TIME: int := 5

  type CallbackId = Tasks.CallbackId

  /** An entry of the function table: the handler and, when one was
      given, the timeout. */
  datatype FunctionEntry = FunctionEntry(callback: CallbackId, timeout: Option<int>)

  /** A socket, identified by the order in which the worker opened it. */
  datatype Socket = Socket(id: nat)

  /** The commands the worker writes. */
  datatype Command =
    | SetClientId(clientId: string)
    | CanDo(func: string)
    | GrabJob
    | PreSleep
    | WorkComplete(handle: string, result: string)
    | WorkFail(handle: string)

  /** One packet written by `Connection::send`, with the server whose
      connection it went to. */
  datatype Packet = Packet(server: string, command: Command)

  /** The argument a job handler receives: `[]` when the assignment
      carries none, the value `json_decode` produced, or the raw text when
      it does not decode. */
  datatype Arg = NoArg | Decoded(value: string) | Raw(text: string)

  /** One callback or handler invocation, with the arguments it receives. */
  datatype Event =
    | StartCalled(callback: CallbackId, handle: string, job: string, arg: Arg)
    | HandlerCalled(callback: CallbackId, arg: Arg)
    | CompleteCalled(callback: CallbackId, handle: string, job: string, result: string)
    | FailCalled(callback: CallbackId, handle: string, job: string, reason: string)

  datatype Worker = Worker(
    id: string,
    servers: Servers,
    functions: OMap<string, FunctionEntry>,
    connection: OMap<string, Socket>,
    retryConn: OMap<string, int>,
    onStart: seq<CallbackId>,
    onComplete: seq<CallbackId>,
    onFail: seq<CallbackId>,
    sent: seq<Packet>,
    nextSocket: nat)

  /** The ordered maps are well formed, no server is both open and waiting
      for a retry, and both tables only hold registered servers. */
  ghost predicate Valid(w: Worker) {
    && w.servers.Valid() && w.functions.Valid() && w.connection.Valid() && w.retryConn.Valid()
    && (forall s :: s in w.connection.entries ==> s !in w.retryConn.entries)
    && (forall s :: s in w.connection.entries ==> s in w.servers.entries)
    && (forall s :: s in w.retryConn.entries ==> s in w.servers.entries)
  }

  /** Every registered server is either open or in the retry table. */
  ghost predicate Covered(w: Worker) {
    forall s :: s in w.servers.entries ==> s in w.connection.entries || s in w.retryConn.entries
  }

  /** `new Worker($id)`: a missing id is replaced by the generated
      `pid_<pid>_<uniqid>` one, which is an input here. */
  function NewWorker(id: Option<string>, generatedId: string): (w: Worker)
    ensures Valid(w) && Covered(w)
    ensures w.id == (if id.Some? then id.value else generatedId)
    ensures w.servers.keys == [] && w.functions.keys == [] && w.sent == []
    ensures w.onStart == [] && w.onComplete == [] && w.onFail == []
  {
    Worker(if id.Some? then id.value else generatedId, Empty(), Empty(), Empty(), Empty(), [], [], [], [], 0)
  }

  /** `addServer` on the worker: the same rules as on the client. */
  function AddWorkerServer(w: Worker, host: string, port: Option<int>): (r: Result<Worker>)
    requires Valid(w)
    ensures r.Ok? <==> AddServer(w.servers, host, port).Ok?
    ensures r.Err? ==> r.error == AddServer(w.servers, host, port).error
    ensures r.Ok? ==> Valid(r.value) && r.value == w.(servers := AddServer(w.servers, host, port).value)
  {
    var servers :- AddServer(w.servers, host, port);
    Ok(w.(servers := servers))
  }

  /** The worker after `addServers`, with the error that stopped the
      loop, if any. */
  datatype WorkerRegistration = WorkerRegistration(worker: Worker, error: Option<Error>)

  /** `addServers` on the worker: a string is split on ',' first, and the
      servers registered before a failure stay registered on the worker
      when the exception propagates. */
  function AddWorkerServers(w: Worker, list: seq<string>): (r: WorkerRegistration)
    requires Valid(w)
    ensures Valid(r.worker)
    ensures r.error == AddServerList(w.servers, list).error
    ensures r.worker == w.(servers := AddServerList(w.servers, list).servers)
  {
    var reg := AddServerList(w.servers, list);
    WorkerRegistration(w.(servers := reg.servers), reg.error)
  }

  /** When entry `i` fails, the worker keeps the servers of the entries
      before it, reports that entry's error, and nothing else changes. */
  lemma AddWorkerServersFails(w: Worker, list: seq<string>, i: nat)
    requires Valid(w) && FailsAt(w.servers, list, i)
    ensures var before := AddServerList(w.servers, list[..i]).servers;
      && AddWorkerServers(w, list).worker == w.(servers := before)
      && AddWorkerServers(w, list).error == Some(AddEntry(before, list[i]).error)
  {
    AddServerListStopsAt(w.servers, list, i);
  }

  /** `addFunction($functionName, $callback, $timeout)`. */
  function AddFunction(w: Worker, name: string, callback: CallbackId, timeout: Option<int>): (r: Result<Worker>)
    requires Valid(w)
    ensures r.Err? <==> name in w.functions.entries
    ensures r.Err? ==> r.error == FunctionAlreadyRegistered(name)
    ensures r.Ok? ==> Valid(r.value)
    ensures r.Ok? ==> r.value.functions.keys == w.functions.keys + [name]
    ensures r.Ok? ==> r.value.functions.entries == w.functions.entries[name := FunctionEntry(callback, timeout)]
    ensures r.Ok? ==> r.value.(functions := w.functions) == w
  {
    if name in w.functions.entries then Err(FunctionAlreadyRegistered(name))
    else Ok(w.(functions := w.functions.Put(name, FunctionEntry(callback, timeout))))
  }

  /** `unregister($functionName)`. */
  function Unregister(w: Worker, name: string): (r: Result<Worker>)
    requires Valid(w)
    ensures r.Err? <==> name !in w.functions.entries
    ensures r.Err? ==> r.error == FunctionNotRegistered(name)
    ensures r.Ok? ==> Valid(r.value)
    ensures r.Ok? ==> r.value.functions.entries == w.functions.entries - {name}
    ensures r.Ok? ==> r.value.functions.keys == Without(w.functions.keys, name)
    ensures r.Ok? ==> r.value.(functions := w.functions) == w
  {
    if name !in w.functions.entries then Err(FunctionNotRegistered(name))
    else Ok(w.(functions := w.functions.Remove(name)))
  }

  /** `unregisterAll()`. */
  function UnregisterAll(w: Worker): (r: Worker)
    requires Valid(w)
    ensures Valid(r) && r.functions.keys == [] && r.functions.entries == map[]
    ensures r.(functions := w.functions) == w
  {
    w.(functions := Empty())
  }

  /** Registering a new function and unregistering it again gives back
      the worker as it was; unregistering an unknown name fails until it is
      added. */
  lemma UnregisterUndoesAdd(w: Worker, name: string, callback: CallbackId, timeout: Option<int>)
    requires Valid(w) && name !in w.functions.entries
    ensures Unregister(w, name).Err?
    ensures AddFunction(w, name, callback, timeout).Ok?
    ensures Unregister(AddFunction(w, name, callback, timeout).value, name) == Ok(w)
  {
    RemoveAfterPut(w.functions, name, FunctionEntry(callback, timeout));
  }

  /** Unregistering one function keeps the others, in their order and
      with their entries. */
  lemma UnregisterKeepsOthers(w: Worker, name: string, other: string)
    requires Valid(w) && name in w.functions.entries && other != name
    ensures other in Unregister(w, name).value.functions.entries <==> other in w.functions.entries
    ensures other in w.functions.entries ==>
      Unregister(w, name).value.functions.entries[other] == w.functions.entries[other]
    ensures |Unregister(w, name).value.functions.keys| == |w.functions.keys| - 1
  {
    var r := Unregister(w, name).value;
    assert r.functions.entries.Keys == w.functions.entries.Keys - {name};
    KeysCount(w.functions);
    KeysCount(r.functions);
  }

  /** A well-formed ordered map lists as many keys as it has entries. */
  lemma KeysCount<V>(m: OMap<string, V>)
    requires m.Valid()
    ensures |m.keys| == |m.entries.Keys|
  {
    DistinctCount(m.keys);
    assert (set x | x in m.keys) == m.entries.Keys;
  }

  lemma {:induction false} DistinctCount(s: seq<string>)
    requires forall i, j :: 0 <= i < j < |s| ==> s[i] != s[j]
    ensures |set x | x in s| == |s|
  {
    if |s| > 0 {
      var init := s[..|s| - 1];
      var last := s[|s| - 1];
      assert s == init + [last];
      DistinctCount(init);
      assert last !in init;
      assert (set x | x in s) == (set x | x in init) + {last};
    }
  }

  /** The callbacks of one kind. */
  function WorkerCallbacks(w: Worker, kind: int): seq<CallbackId> {
    if kind == JOB_START then w.onStart
    else if kind == JOB_COMPLETE then w.onComplete
    else if kind == JOB_FAIL then w.onFail
    else []
  }

  /** `attachCallback($callback, $type)`: only the three known kinds are
      accepted, and each list keeps registration order. */
  function AttachCallback(w: Worker, callback: CallbackId, kind: int): (r: Result<Worker>)
    ensures r.Ok? <==> kind in {JOB_START, JOB_COMPLETE, JOB_FAIL}
    ensures r.Err? ==> r.error == InvalidCallbackType(kind)
    ensures r.Ok? ==> WorkerCallbacks(r.value, kind) == WorkerCallbacks(w, kind) + [callback]
    ensures r.Ok? ==> forall other :: other != kind ==> WorkerCallbacks(r.value, other) == WorkerCallbacks(w, other)
    ensures r.Ok? ==> r.value.(onStart := w.onStart, onComplete := w.onComplete, onFail := w.onFail) == w
  {
    if kind == JOB_START then Ok(w.(onStart := w.onStart + [callback]))
    else if kind == JOB_COMPLETE then Ok(w.(onComplete := w.onComplete + [callback]))
    else if kind == JOB_FAIL then Ok(w.(onFail := w.onFail + [callback]))
    else Err(InvalidCallbackType(kind))
  }

  // ---------------------------------------------------------------------
  // Announcing the functions

  /** `can_do` for one function on each of `servers`, in order. */
  function CanDoEach(func: string, servers: seq<string>): (r: seq<Packet>)
    ensures |r| == |servers|
    ensures forall i :: 0 <= i < |r| ==> r[i] == Packet(servers[i], CanDo(func))
  {
    seq(|servers|, i requires 0 <= i < |servers| => Packet(servers[i], CanDo(func)))
  }

  /** The packets of `registerFunctionsToOpenedConnections` for the
      function names `funcs` and the open servers `servers`. */
  function Announcements(funcs: seq<string>, servers: seq<string>): (r: seq<Packet>)
  {
    if |funcs| == 0 then [] else CanDoEach(funcs[0], servers) + Announcements(funcs[1..], servers)
  }

  /** Every function is announced on every open connection, one packet
      per pair, and nothing else is sent: in particular a function's
      timeout never reaches the server, because the command chosen is
      always `can_do`. */
  lemma {:induction false} AnnouncementsCover(funcs: seq<string>, servers: seq<string>)
    ensures |Announcements(funcs, servers)| == |funcs| * |servers|
    ensures forall p :: p in Announcements(funcs, servers) <==>
      p.command.CanDo? && p.command.func in funcs && p.server in servers
  {
    if |funcs| > 0 {
      AnnouncementsCover(funcs[1..], servers);
      var head := CanDoEach(funcs[0], servers);
      var tail := Announcements(funcs[1..], servers);
      assert |funcs[1..]| * |servers| + |servers| == |funcs| * |servers| by {
        assert |funcs| == |funcs[1..]| + 1;
      }
      forall p
        ensures p in head <==> p.command.CanDo? && p.command.func == funcs[0] && p.server in servers
      {
        if p.command.CanDo? && p.command.func == funcs[0] && p.server in servers {
          var i :| 0 <= i < |servers| && servers[i] == p.server;
          assert head[i] == p;
        }
      }
      assert forall x :: x in funcs <==> x == funcs[0] || x in funcs[1..] by {
        assert funcs == [funcs[0]] + funcs[1..];
      }
    }
  }

  /** `registerFunctionsToOpenedConnections()`. */
  function Register(w: Worker): (r: Worker)
    requires Valid(w)
    ensures Valid(r) && (Covered(w) ==> Covered(r))
    ensures r.(sent := w.sent) == w
    ensures |r.sent| >= |w.sent| && r.sent[..|w.sent|] == w.sent
  {
    var r := w.(sent := w.sent + Announcements(w.functions.keys, w.connection.keys));
    assert r.sent[..|w.sent|] == w.sent;
    r
  }

  /** What registering sends: `can_do` for every function on every open
      connection, one packet per pair. */
  lemma RegisterAnnounces(w: Worker)
    requires Valid(w)
    ensures |Register(w).sent| == |w.sent| + |w.functions.keys| * |w.connection.keys|
    ensures forall p :: p in Register(w).sent[|w.sent|..] <==>
      p.command.CanDo? && p.command.func in w.functions.entries && p.server in w.connection.entries
  {
    AnnouncementsCover(w.functions.keys, w.connection.keys);
    assert Register(w).sent[|w.sent|..] == Announcements(w.functions.keys, w.connection.keys);
  }

  // ---------------------------------------------------------------------
  // Connecting

  /** Servers listed once each, none of them open or waiting yet. */
  ghost predicate Fresh(w: Worker, ks: seq<string>) {
    && (forall i :: 0 <= i < |ks| ==> ks[i] in w.servers.entries)
    && (forall i :: 0 <= i < |ks| ==> ks[i] !in w.connection.entries && ks[i] !in w.retryConn.entries)
    && (forall i, j :: 0 <= i < j < |ks| ==> ks[i] != ks[j])
  }

  /** One pass of the `foreach` of `connectToAllServers`: a server that
      accepts a connection is opened and told the worker's id, one that
      does not goes into the retry table stamped with `now`. */
  function ConnectOne(w: Worker, s: string, reachable: set<string>, now: int): (r: Worker)
    requires Valid(w) && s in w.servers.entries && s !in w.connection.entries && s !in w.retryConn.entries
    ensures Valid(r)
    ensures r.servers == w.servers && r.functions == w.functions && r.id == w.id
    ensures r.onStart == w.onStart && r.onComplete == w.onComplete && r.onFail == w.onFail
    ensures s in reachable ==>
      && r.connection.entries.Keys == w.connection.entries.Keys + {s} && r.retryConn == w.retryConn
      && r.sent == w.sent + [Packet(s, SetClientId(w.id))]
    ensures s !in reachable ==>
      && r.retryConn.entries == w.retryConn.entries[s := now] && r.connection == w.connection
      && r.sent == w.sent
  {
    if s in reachable then
      w.(connection := w.connection.Put(s, Socket(w.nextSocket)), nextSocket := w.nextSocket + 1,
         sent := w.sent + [Packet(s, SetClientId(w.id))])
    else w.(retryConn := w.retryConn.Put(s, now))
  }

  /** The `foreach` of `connectToAllServers` over `ks`. */
  function ConnectEach(w: Worker, ks: seq<string>, reachable: set<string>, now: int): (r: Worker)
    requires Valid(w) && Fresh(w, ks)
    ensures Valid(r)
    ensures r.servers == w.servers && r.functions == w.functions && r.id == w.id
    ensures r.onStart == w.onStart && r.onComplete == w.onComplete && r.onFail == w.onFail
    ensures |r.sent| >= |w.sent| && r.sent[..|w.sent|] == w.sent
    decreases |ks|
  {
    if |ks| == 0 then w
    else
      var w' := ConnectOne(w, ks[0], reachable, now);
      FreshTail(w, w', ks);
      var r := ConnectEach(w', ks[1..], reachable, now);
      assert w'.sent[..|w.sent|] == w.sent;
      PrefixChain(w.sent, w'.sent, r.sent);
      r
  }

  lemma FreshTail(w: Worker, w': Worker, ks: seq<string>)
    requires Fresh(w, ks) && |ks| > 0 && w'.servers == w.servers
    requires forall s :: s in w'.connection.entries ==> s in w.connection.entries || s == ks[0]
    requires forall s :: s in w'.retryConn.entries ==> s in w.retryConn.entries || s == ks[0]
    ensures Fresh(w', ks[1..])
  {
    assert forall i :: 0 <= i < |ks[1..]| ==> ks[1..][i] == ks[i + 1];
  }

  /** Connecting to `ks` opens exactly the reachable ones and puts the
      others into the retry table stamped with `now`. */
  lemma {:induction false} ConnectEachServer(w: Worker, ks: seq<string>, reachable: set<string>, now: int, s: string)
    requires Valid(w) && Fresh(w, ks)
    ensures var r := ConnectEach(w, ks, reachable, now);
      && (s in r.connection.entries <==> s in w.connection.entries || (s in ks && s in reachable))
      && (s in r.retryConn.entries <==> s in w.retryConn.entries || (s in ks && s !in reachable))
      && (s in ks && s !in reachable ==> r.retryConn.entries[s] == now)
      && (s !in ks ==> r.retryConn.Get(s) == w.retryConn.Get(s))
    decreases |ks|
  {
    if |ks| > 0 {
      var w' := ConnectOne(w, ks[0], reachable, now);
      FreshTail(w, w', ks);
      assert ConnectEach(w, ks, reachable, now) == ConnectEach(w', ks[1..], reachable, now);
      ConnectEachServer(w', ks[1..], reachable, now, s);
      InTail(ks, s);
      assert ks[0] !in ks[1..];
    }
  }

  /** The only packets connecting sends tell each opened server the
      worker's id. */
  lemma {:induction false} ConnectEachSends(w: Worker, ks: seq<string>, reachable: set<string>, now: int, p: Packet)
    requires Valid(w) && Fresh(w, ks)
    ensures p in ConnectEach(w, ks, reachable, now).sent <==>
      p in w.sent || (p.server in ks && p.server in reachable && p.command == SetClientId(w.id))
    decreases |ks|
  {
    if |ks| > 0 {
      var w' := ConnectOne(w, ks[0], reachable, now);
      FreshTail(w, w', ks);
      assert ConnectEach(w, ks, reachable, now) == ConnectEach(w', ks[1..], reachable, now);
      ConnectEachSends(w', ks[1..], reachable, now, p);
      InTail(ks, p.server);
    }
  }

  lemma InTail(ks: seq<string>, s: string)
    requires |ks| > 0
    ensures s in ks <==> s == ks[0] || s in ks[1..]
  {
    assert ks == [ks[0]] + ks[1..];
  }

  /** `connectToAllServers()`: fails when no server accepted a connection;
      otherwise every registered server is open or waiting to be retried. */
  function ConnectToAllServers(w: Worker, reachable: set<string>, now: int): (r: Result<Worker>)
    requires Valid(w) && w.connection.keys == [] && w.retryConn.keys == []
    ensures r.Err? <==> forall s :: s in w.servers.entries ==> s !in reachable
    ensures r.Err? ==> r.error == NoServerConnected
    ensures r.Ok? ==> Valid(r.value) && Covered(r.value) && SameJobs(w, r.value)
    ensures r.Ok? ==> |r.value.sent| >= |w.sent| && r.value.sent[..|w.sent|] == w.sent
    ensures r.Ok? ==> forall s :: s in r.value.connection.entries <==> s in w.servers.entries && s in reachable
    ensures r.Ok? ==> forall s :: s in r.value.retryConn.entries <==> s in w.servers.entries && s !in reachable
  {
    var ks := w.servers.keys;
    var c := ConnectEach(w, ks, reachable, now);
    forall s | true
      ensures s in c.connection.entries <==> s in w.servers.entries && s in reachable
      ensures s in c.retryConn.entries <==> s in w.servers.entries && s !in reachable
    {
      ConnectEachServer(w, ks, reachable, now, s);
    }
    if c.connection.keys == [] then
      assert forall s :: s in w.servers.entries ==> s !in reachable;
      Err(NoServerConnected)
    else
      assert c.connection.keys[0] in c.connection.entries;
      Ok(c)
  }

  // ---------------------------------------------------------------------
  // Running one job: doWork

  /** A reply as `Connection::blockingRead` decodes it. */
  datatype Reply =
    | Noop
    | NoJob
    | JobAssign(handle: string, func: string, arg: Option<string>)
    | Unexpected(name: string)

  /** What the registered handler did when called: returned a value
      (written as the PHP string it converts to), threw a `JobException`,
      threw another exception, or raised an engine error. */
  datatype HandlerOutcome =
    | Returned(value: string)
    | ThrewJobException(reason: string)
    | ThrewException(reason: string)
    | ThrewError(detail: string)

  /** The inputs of one `doWork` call: the replies the connection yields,
      what the handler does if it is called, and what `time()` reads once
      the job is done. */
  datatype Turn = Turn(replies: seq<Reply>, outcome: HandlerOutcome, clock: int)

  /** `json_decode($arg, true)`: None where PHP gets null. */
  type JsonDecode = string -> Option<string>

  /** The packets one `doWork` call wrote, the callbacks it ran, and its
      outcome: whether it did a job, or what it raised. */
  datatype Served = Served(sent: seq<Packet>, events: seq<Event>, outcome: Result<bool>)

  /** The position of the first reply that is not `noop`, or the length
      when every reply is one: the loop that skips `noop` replies. */
  function FirstReply(replies: seq<Reply>): (i: nat)
    ensures i <= |replies|
    ensures forall j :: 0 <= j < i ==> replies[j].Noop?
    ensures i < |replies| ==> !replies[i].Noop?
  {
    if |replies| == 0 || !replies[0].Noop? then 0 else 1 + FirstReply(replies[1..])
  }

  /** The handler's argument: `[]` unless the assignment carries a
      non-empty argument, which is decoded as JSON and kept raw when that
      gives null. */
  function ArgOf(arg: Option<string>, decode: JsonDecode): (r: Arg)
    ensures r == NoArg <==> arg.None? || arg.value == ""
    ensures r.Raw? ==> arg == Some(r.text) && decode(r.text).None?
    ensures r.Decoded? ==> arg.Some? && decode(arg.value) == Some(r.value)
  {
    if arg.None? || arg.value == "" then NoArg
    else match decode(arg.value)
      case None => Raw(arg.value)
      case Some(v) => Decoded(v)
  }

  /** `if (!$result) $result = ''`: of the PHP strings only "0" is falsy
      and not already empty. */
  function SentResult(value: string): (r: string)
    ensures r == "" <==> value == "" || value == "0"
    ensures r != "" ==> r == value
  {
    if value == "0" then "" else value
  }

  /** The exceptions `work()` catches: everything `doWork` raises except
      PHP engine errors, which are not `\Exception`s. */
  predicate IsException(e: Error) {
    e.ConnectionLost? || e.JobNotAssigned? || e.HandlerException?
  }

  /** The errors `doWork` raises that `work()` does not catch: a job for
      a function with no callable handler, and a PHP engine error. */
  predicate Uncaught(e: Error) {
    e.FunctionNotCallable? || e.HandlerEngineError?
  }

  /** Whether the first reply after the `noop`s assigns a job. */
  predicate Assigned(turn: Turn) {
    var i := FirstReply(turn.replies);
    i < |turn.replies| && turn.replies[i].JobAssign?
  }

  /** `doWork($socket)` on the connection to `server`. It always asks
      for a job first. It reports work done exactly when a job for a
      registered function was assigned and the handler returned or threw a
      `JobException`; the job is then answered with exactly one
      `work_complete` (a falsy result sent as "") or `work_fail` for its
      handle. It reports no work on `no_job`, and it raises when the
      connection yields only `noop`, when the reply is anything else, and
      when the handler fails otherwise. When a job is assigned the start
      callbacks run first, in order, with its handle, function name and
      argument, and then the handler with the same argument. */
  function DoWork(w: Worker, server: string, turn: Turn, decode: JsonDecode): (r: Served)
    ensures 1 <= |r.sent| <= 2 && r.sent[0] == Packet(server, GrabJob)
    ensures r.outcome == Ok(false) <==>
      FirstReply(turn.replies) < |turn.replies| && turn.replies[FirstReply(turn.replies)].NoJob?
    ensures r.outcome == Ok(true) <==>
      && Assigned(turn) && turn.replies[FirstReply(turn.replies)].func in w.functions.entries
      && (turn.outcome.Returned? || turn.outcome.ThrewJobException?)
    ensures |r.sent| == 2 <==> r.outcome == Ok(true)
    ensures r.outcome == Ok(true) && turn.outcome.Returned? ==>
      r.sent[1] == Packet(server, WorkComplete(turn.replies[FirstReply(turn.replies)].handle,
                                               SentResult(turn.outcome.value)))
    ensures r.outcome == Ok(true) && turn.outcome.ThrewJobException? ==>
      r.sent[1] == Packet(server, WorkFail(turn.replies[FirstReply(turn.replies)].handle))
    ensures r.outcome == Err(ConnectionLost(server)) <==> FirstReply(turn.replies) == |turn.replies|
    ensures r.outcome == Err(JobNotAssigned) <==>
      FirstReply(turn.replies) < |turn.replies| && turn.replies[FirstReply(turn.replies)].Unexpected?
    ensures r.outcome.Err? ==> IsException(r.outcome.error) || Uncaught(r.outcome.error)
    ensures !Assigned(turn) ==> r.events == []
    ensures Assigned(turn) ==>
      var reply := turn.replies[FirstReply(turn.replies)];
      && |r.events| >= |w.onStart|
      && (forall k :: 0 <= k < |w.onStart| ==>
            r.events[k] == StartCalled(w.onStart[k], reply.handle, reply.func, ArgOf(reply.arg, decode)))
      && (reply.func in w.functions.entries ==>
            |r.events| > |w.onStart| &&
            r.events[|w.onStart|] == HandlerCalled(w.functions.entries[reply.func].callback, ArgOf(reply.arg, decode)))
  {
    var grab := Packet(server, GrabJob);
    var i := FirstReply(turn.replies);
    if i == |turn.replies| then Served([grab], [], Err(ConnectionLost(server)))
    else
      var reply := turn.replies[i];
      if reply.Noop? || reply.NoJob? then Served([grab], [], Ok(false))
      else if !reply.JobAssign? then Served([grab], [], Err(JobNotAssigned))
      else
        var handle := reply.handle;
        var name := reply.func;
        var arg := ArgOf(reply.arg, decode);
        var starts := seq(|w.onStart|, k requires 0 <= k < |w.onStart| => StartCalled(w.onStart[k], handle, name, arg));
        if name !in w.functions.entries then Served([grab], starts, Err(FunctionNotCallable(name)))
        else
          var called := starts + [HandlerCalled(w.functions.entries[name].callback, arg)];
          match turn.outcome
          case Returned(v) =>
            var result := SentResult(v);
            var completes := seq(|w.onComplete|, k requires 0 <= k < |w.onComplete| =>
              CompleteCalled(w.onComplete[k], handle, name, result));
            Served([grab, Packet(server, WorkComplete(handle, result))], called + completes, Ok(true))
          case ThrewJobException(reason) =>
            var fails := seq(|w.onFail|, k requires 0 <= k < |w.onFail| =>
              FailCalled(w.onFail[k], handle, name, reason));
            Served([grab, Packet(server, WorkFail(handle))], called + fails, Ok(true))
          case ThrewException(reason) => Served([grab], called, Err(HandlerException(reason)))
          case ThrewError(detail) => Served([grab], called, Err(HandlerEngineError(detail)))
  }

  // ---------------------------------------------------------------------
  // One pass of work()

  /** The inputs of one pass of the `work()` loop: the `time()` reading
      at its start, the inputs of `doWork` on each open server, the JSON
      decoder, whether `socket_select` finds a connection readable, and the
      servers a retry manages to reach. */
  datatype Tick = Tick(
    now: int,
    turn: string -> Turn,
    decode: JsonDecode,
    readable: bool,
    reachable: set<string>)

  /** Whether `doWork` on `s` did a job, raised an exception that `work()`
      catches, or raised an engine error that nothing catches. */
  predicate Works(w: Worker, s: string, tick: Tick) {
    DoWork(w, s, tick.turn(s), tick.decode).outcome == Ok(true)
  }

  predicate Throws(w: Worker, s: string, tick: Tick) {
    var o := DoWork(w, s, tick.turn(s), tick.decode).outcome;
    o.Err? && IsException(o.error)
  }

  predicate Escapes(w: Worker, s: string, tick: Tick) {
    var o := DoWork(w, s, tick.turn(s), tick.decode).outcome;
    o.Err? && !IsException(o.error)
  }

  /** Two workers that agree on everything but their connections and the
      packets they sent. */
  ghost predicate SameJobs(a: Worker, b: Worker) {
    && a.id == b.id && a.servers == b.servers && a.functions == b.functions
    && a.onStart == b.onStart && a.onComplete == b.onComplete && a.onFail == b.onFail
  }

  /** `doWork` depends on the worker only through its functions and
      callbacks. */
  lemma DoWorkSameJobs(a: Worker, b: Worker, s: string, tick: Tick)
    requires SameJobs(a, b)
    ensures DoWork(a, s, tick.turn(s), tick.decode) == DoWork(b, s, tick.turn(s), tick.decode)
  {
  }

  /** No packet of `ps` is a `pre_sleep`. */
  predicate Quiet(ps: seq<Packet>) {
    forall i :: 0 <= i < |ps| ==> ps[i].command != PreSleep
  }

  /** Servers listed once each, all of them open. */
  ghost predicate OpenAll(w: Worker, ks: seq<string>) {
    && (forall i :: 0 <= i < |ks| ==> ks[i] in w.connection.entries)
    && (forall i, j :: 0 <= i < j < |ks| ==> ks[i] != ks[j])
  }

  /** The state the first `foreach` of a pass carries: the worker, the
      `$lastJob` and `!$sleep` flags, and the callbacks run so far. */
  datatype Serving = Serving(worker: Worker, lastJob: int, worked: bool, events: seq<Event>)

  /** The `catch` of the first `foreach`: drop the connection and stamp
      the server for a retry. */
  function Drop(w: Worker, s: string, now: int): (r: Worker)
    requires Valid(w) && s in w.connection.entries
    ensures Valid(r) && (Covered(w) ==> Covered(r)) && SameJobs(w, r) && r.sent == w.sent
    ensures s !in r.connection.entries && r.retryConn.Get(s) == Some(now)
    ensures forall x :: x != s ==> r.connection.Get(x) == w.connection.Get(x) && r.retryConn.Get(x) == w.retryConn.Get(x)
  {
    w.(connection := w.connection.Remove(s), retryConn := w.retryConn.Put(s, now))
  }

  /** One iteration of the first `foreach`: the packets `doWork` wrote
      stay written whatever it raised. */
  function ServeOne(st: Serving, s: string, tick: Tick): (r: Result<Serving>)
    requires Valid(st.worker) && s in st.worker.connection.entries
    ensures r.Err? <==> Escapes(st.worker, s, tick)
    ensures r.Err? ==> Uncaught(r.error)
    ensures r.Ok? ==> Valid(r.value.worker) && (Covered(st.worker) ==> Covered(r.value.worker))
    ensures r.Ok? ==> SameJobs(st.worker, r.value.worker)
    ensures r.Ok? ==>
      && |r.value.worker.sent| >= |st.worker.sent| && r.value.worker.sent[..|st.worker.sent|] == st.worker.sent
      && Quiet(r.value.worker.sent[|st.worker.sent|..])
    ensures r.Ok? ==> r.value.worked == (st.worked || Works(st.worker, s, tick))
    ensures r.Ok? ==> r.value.lastJob == if Works(st.worker, s, tick) then tick.turn(s).clock else st.lastJob
    ensures r.Ok? && Throws(st.worker, s, tick) ==>
      s !in r.value.worker.connection.entries && r.value.worker.retryConn.Get(s) == Some(tick.now)
    ensures r.Ok? && !Throws(st.worker, s, tick) ==>
      r.value.worker.connection.Get(s) == st.worker.connection.Get(s) &&
      r.value.worker.retryConn.Get(s) == st.worker.retryConn.Get(s)
    ensures r.Ok? ==> forall x :: x != s ==>
      r.value.worker.connection.Get(x) == st.worker.connection.Get(x) &&
      r.value.worker.retryConn.Get(x) == st.worker.retryConn.Get(x)
  {
    var served := DoWork(st.worker, s, tick.turn(s), tick.decode);
    assert Quiet(served.sent);
    Absorb(st, s, tick.now, tick.turn(s).clock, served)
  }

  /** What one `doWork` leaves behind: its packets are written, a job done
      stamps `$lastJob` with `clock`, an exception drops the connection
      for a retry at `now`, and an engine error escapes. */
  function Absorb(st: Serving, s: string, now: int, clock: int, served: Served): (r: Result<Serving>)
    requires Valid(st.worker) && s in st.worker.connection.entries && Quiet(served.sent)
    ensures r.Err? <==> served.outcome.Err? && !IsException(served.outcome.error)
    ensures r.Err? ==> r.error == served.outcome.error
    ensures r.Ok? ==> Valid(r.value.worker) && (Covered(st.worker) ==> Covered(r.value.worker))
    ensures r.Ok? ==> SameJobs(st.worker, r.value.worker)
    ensures r.Ok? ==>
      && |r.value.worker.sent| >= |st.worker.sent| && r.value.worker.sent[..|st.worker.sent|] == st.worker.sent
      && Quiet(r.value.worker.sent[|st.worker.sent|..])
    ensures r.Ok? ==> r.value.worked == (st.worked || served.outcome == Ok(true))
    ensures r.Ok? ==> r.value.lastJob == if served.outcome == Ok(true) then clock else st.lastJob
    ensures r.Ok? && served.outcome.Err? ==>
      s !in r.value.worker.connection.entries && r.value.worker.retryConn.Get(s) == Some(now)
    ensures r.Ok? && !served.outcome.Err? ==>
      r.value.worker.connection.Get(s) == st.worker.connection.Get(s) &&
      r.value.worker.retryConn.Get(s) == st.worker.retryConn.Get(s)
    ensures r.Ok? ==> forall x :: x != s ==>
      r.value.worker.connection.Get(x) == st.worker.connection.Get(x) &&
      r.value.worker.retryConn.Get(x) == st.worker.retryConn.Get(x)
  {
    var w := st.worker.(sent := st.worker.sent + served.sent);
    assert w.sent[..|st.worker.sent|] == st.worker.sent;
    assert w.sent[|st.worker.sent|..] == served.sent;
    var events := st.events + served.events;
    match served.outcome
    case Ok(true) => Ok(Serving(w, clock, true, events))
    case Ok(false) => Ok(Serving(w, st.lastJob, st.worked, events))
    case Err(e) =>
      if IsException(e) then Ok(Serving(Drop(w, s, now), st.lastJob, st.worked, events))
      else Err(e)
  }

  /** The first `foreach` of a pass, over the open servers `ks` as they
      were when it started. */
  function ServeAll(st: Serving, ks: seq<string>, tick: Tick): (r: Result<Serving>)
    requires Valid(st.worker) && OpenAll(st.worker, ks)
    ensures r.Err? ==> Uncaught(r.error)
    ensures r.Ok? ==> Valid(r.value.worker) && (Covered(st.worker) ==> Covered(r.value.worker))
    ensures r.Ok? ==> SameJobs(st.worker, r.value.worker)
    ensures r.Ok? ==>
      && |r.value.worker.sent| >= |st.worker.sent| && r.value.worker.sent[..|st.worker.sent|] == st.worker.sent
      && Quiet(r.value.worker.sent[|st.worker.sent|..])
    decreases |ks|
  {
    if |ks| == 0 then
      assert st.worker.sent[|st.worker.sent|..] == [];
      Ok(st)
    else
      var next :- ServeOne(st, ks[0], tick);
      OpenTail(st.worker, next.worker, ks);
      var r :- ServeAll(next, ks[1..], tick);
      QuietJoin(st.worker.sent, next.worker.sent, r.worker.sent);
      Ok(r)
  }

  lemma OpenTail(w: Worker, w': Worker, ks: seq<string>)
    requires OpenAll(w, ks) && |ks| > 0
    requires forall x :: x != ks[0] ==> w'.connection.Get(x) == w.connection.Get(x)
    ensures OpenAll(w', ks[1..])
  {
    forall i | 0 <= i < |ks[1..]|
      ensures ks[1..][i] in w'.connection.entries
    {
      assert ks[1..][i] == ks[i + 1] && ks[i + 1] != ks[0];
      assert w'.connection.Get(ks[i + 1]) == w.connection.Get(ks[i + 1]);
    }
  }

  /** One turn of the first `foreach`: the rest of the pass runs on what
      the first server left. */
  lemma ServeAllStep(st: Serving, ks: seq<string>, tick: Tick)
    requires Valid(st.worker) && OpenAll(st.worker, ks) && |ks| > 0 && ServeOne(st, ks[0], tick).Ok?
    ensures OpenAll(ServeOne(st, ks[0], tick).value.worker, ks[1..])
    ensures ServeAll(st, ks, tick) == ServeAll(ServeOne(st, ks[0], tick).value, ks[1..], tick)
  {
    OpenTail(st.worker, ServeOne(st, ks[0], tick).value.worker, ks);
  }

  /** Workers with the same jobs fare alike on the servers after the
      first. */
  lemma ShiftOutcomes(w: Worker, w': Worker, ks: seq<string>, tick: Tick)
    requires SameJobs(w, w') && |ks| > 0
    ensures forall i :: 0 <= i < |ks| - 1 ==>
      Works(w', ks[1..][i], tick) == Works(w, ks[i + 1], tick) &&
      Escapes(w', ks[1..][i], tick) == Escapes(w, ks[i + 1], tick)
  {
    forall i | 0 <= i < |ks| - 1
      ensures Works(w', ks[1..][i], tick) == Works(w, ks[i + 1], tick)
      ensures Escapes(w', ks[1..][i], tick) == Escapes(w, ks[i + 1], tick)
    {
      assert ks[1..][i] == ks[i + 1];
      DoWorkSameJobs(w, w', ks[i + 1], tick);
    }
  }

  /** Extending a log twice with quiet packets is a quiet extension. */
  lemma QuietJoin(a: seq<Packet>, b: seq<Packet>, c: seq<Packet>)
    requires |a| <= |b| <= |c| && b[..|a|] == a && c[..|b|] == b
    requires Quiet(b[|a|..]) && Quiet(c[|b|..])
    ensures c[..|a|] == a && Quiet(c[|a|..])
  {
    assert c[..|a|] == b[..|a|];
    forall i | 0 <= i < |c[|a|..]|
      ensures c[|a|..][i].command != PreSleep
    {
      if |a| + i < |b| {
        assert c[|a|..][i] == b[|a|..][i];
      } else {
        assert c[|a|..][i] == c[|b|..][|a| + i - |b|];
      }
    }
  }

  /** What the first `foreach` does to each server: an open server whose
      `doWork` raised an exception is dropped and stamped with the pass's
      time, every other server keeps its connection and retry entry. */
  lemma {:induction false} ServeAllServer(st: Serving, ks: seq<string>, tick: Tick, x: string)
    requires Valid(st.worker) && OpenAll(st.worker, ks)
    requires ServeAll(st, ks, tick).Ok?
    ensures var r := ServeAll(st, ks, tick).value.worker;
      && (x in ks && Throws(st.worker, x, tick) ==>
            x !in r.connection.entries && r.retryConn.Get(x) == Some(tick.now))
      && (x !in ks || !Throws(st.worker, x, tick) ==>
            r.connection.Get(x) == st.worker.connection.Get(x) && r.retryConn.Get(x) == st.worker.retryConn.Get(x))
    decreases |ks|
  {
    if |ks| > 0 {
      var next := ServeOne(st, ks[0], tick).value;
      OpenTail(st.worker, next.worker, ks);
      assert ServeAll(st, ks, tick) == ServeAll(next, ks[1..], tick);
      ServeAllServer(next, ks[1..], tick, x);
      DoWorkSameJobs(st.worker, next.worker, x, tick);
      InTail(ks, x);
      assert ks[0] !in ks[1..];
    }
  }

  /** The pass did a job exactly when some server's `doWork` did. */
  lemma {:induction false} ServeAllWorked(st: Serving, ks: seq<string>, tick: Tick)
    requires Valid(st.worker) && OpenAll(st.worker, ks)
    requires ServeAll(st, ks, tick).Ok?
    ensures ServeAll(st, ks, tick).value.worked <==>
      st.worked || exists i :: 0 <= i < |ks| && Works(st.worker, ks[i], tick)
    decreases |ks|
  {
    if |ks| > 0 {
      var next := ServeOne(st, ks[0], tick).value;
      OpenTail(st.worker, next.worker, ks);
      assert ServeAll(st, ks, tick) == ServeAll(next, ks[1..], tick);
      ServeAllWorked(next, ks[1..], tick);
      WorksTail(st.worker, next.worker, ks, tick);
    }
  }

  lemma WorksTail(w: Worker, w': Worker, ks: seq<string>, tick: Tick)
    requires SameJobs(w, w') && |ks| > 0
    ensures (exists i :: 0 <= i < |ks| && Works(w, ks[i], tick)) <==>
      Works(w, ks[0], tick) || exists i :: 0 <= i < |ks[1..]| && Works(w', ks[1..][i], tick)
  {
    forall i | 0 <= i < |ks[1..]|
      ensures Works(w', ks[1..][i], tick) == Works(w, ks[i + 1], tick)
    {
      DoWorkSameJobs(w, w', ks[i + 1], tick);
    }
    if exists i :: 0 <= i < |ks| && Works(w, ks[i], tick) {
      var i :| 0 <= i < |ks| && Works(w, ks[i], tick);
      if i > 0 {
        assert Works(w', ks[1..][i - 1], tick);
      }
    }
  }

  /** `$lastJob` is the time read after the last job the pass did, and
      is left alone by a pass that did none. */
  lemma {:induction false} ServeAllLastJob(st: Serving, ks: seq<string>, tick: Tick)
    requires Valid(st.worker) && OpenAll(st.worker, ks)
    requires ServeAll(st, ks, tick).Ok?
    ensures var r := ServeAll(st, ks, tick).value;
      && ((forall i :: 0 <= i < |ks| ==> !Works(st.worker, ks[i], tick)) ==> r.lastJob == st.lastJob)
      && (r.lastJob == st.lastJob ||
            exists i :: 0 <= i < |ks| && Works(st.worker, ks[i], tick) && r.lastJob == tick.turn(ks[i]).clock)
    decreases |ks|
  {
    if |ks| > 0 {
      var next := ServeOne(st, ks[0], tick).value;
      ServeAllStep(st, ks, tick);
      ServeAllLastJob(next, ks[1..], tick);
      ShiftOutcomes(st.worker, next.worker, ks, tick);
      var r := ServeAll(st, ks, tick).value;
      if r.lastJob != st.lastJob && r.lastJob != next.lastJob {
        var i :| 0 <= i < |ks[1..]| && Works(next.worker, ks[1..][i], tick) && r.lastJob == tick.turn(ks[1..][i]).clock;
        assert Works(st.worker, ks[i + 1], tick) && ks[1..][i] == ks[i + 1];
      }
    }
  }

  /** The pass fails exactly when some server's `doWork` raised an engine
      error. */
  lemma {:induction false} ServeAllEscapes(st: Serving, ks: seq<string>, tick: Tick)
    requires Valid(st.worker) && OpenAll(st.worker, ks)
    ensures ServeAll(st, ks, tick).Err? <==> exists i :: 0 <= i < |ks| && Escapes(st.worker, ks[i], tick)
    decreases |ks|
  {
    if |ks| > 0 {
      if ServeOne(st, ks[0], tick).Err? {
        assert Escapes(st.worker, ks[0], tick);
      } else {
        var next := ServeOne(st, ks[0], tick).value;
        ServeAllStep(st, ks, tick);
        ServeAllEscapes(next, ks[1..], tick);
        ShiftOutcomes(st.worker, next.worker, ks, tick);
        if exists i :: 0 <= i < |ks| && Escapes(st.worker, ks[i], tick) {
          var i :| 0 <= i < |ks| && Escapes(st.worker, ks[i], tick);
          assert Escapes(next.worker, ks[1..][i - 1], tick);
        }
        if ServeAll(next, ks[1..], tick).Err? {
          var j :| 0 <= j < |ks[1..]| && Escapes(next.worker, ks[1..][j], tick);
          assert Escapes(st.worker, ks[j + 1], tick);
        }
      }
    }
  }

  /** Servers listed once each, all of them waiting for a retry. */
  ghost predicate WaitingAll(w: Worker, ks: seq<string>) {
    && (forall i :: 0 <= i < |ks| ==> ks[i] in w.retryConn.entries)
    && (forall i, j :: 0 <= i < j < |ks| ==> ks[i] != ks[j])
  }

  /** Whether a server last tried at `lastTry` is tried again at `now`:
      strictly more than `RETRY_TIME` seconds must have passed. */
  predicate Due(lastTry: int, now: int) {
    lastTry + RETRY_TIME < now
  }

  /** The state the retry `foreach` carries: the worker and
      `$retryChange`. */
  datatype Retried = Retried(worker: Worker, changed: bool)

  /** One iteration of the retry `foreach`: a due server that is reached
      moves from the retry table to the open connections and is told the
      worker's id; a due server that is not reached is stamped again; a
      server that is not due is left alone. */
  function RetryOne(rt: Retried, s: string, tick: Tick): (r: Retried)
    requires Valid(rt.worker) && s in rt.worker.retryConn.entries
    ensures Valid(r.worker) && (Covered(rt.worker) ==> Covered(r.worker)) && SameJobs(rt.worker, r.worker)
    ensures r.changed == (rt.changed || (Due(rt.worker.retryConn.entries[s], tick.now) && s in tick.reachable))
    ensures !Due(rt.worker.retryConn.entries[s], tick.now) ==> r.worker == rt.worker
    ensures Due(rt.worker.retryConn.entries[s], tick.now) && s in tick.reachable ==>
      && s in r.worker.connection.entries && s !in r.worker.retryConn.entries
      && r.worker.sent == rt.worker.sent + [Packet(s, SetClientId(rt.worker.id))]
    ensures Due(rt.worker.retryConn.entries[s], tick.now) && s !in tick.reachable ==>
      r.worker == Postpone(rt.worker, s, tick.now)
    ensures forall x :: x != s ==>
      r.worker.connection.Get(x) == rt.worker.connection.Get(x) &&
      r.worker.retryConn.Get(x) == rt.worker.retryConn.Get(x)
  {
    var w := rt.worker;
    if !Due(w.retryConn.entries[s], tick.now) then rt
    else if s in tick.reachable then Retried(Reopen(w, s), true)
    else Retried(Postpone(w, s, tick.now), rt.changed)
  }

  /** A due server that answers: it gets the next socket, leaves the retry
      table and is told the worker's id. */
  function Reopen(w: Worker, s: string): (r: Worker)
    requires Valid(w) && s in w.retryConn.entries
    ensures Valid(r) && (Covered(w) ==> Covered(r)) && SameJobs(w, r)
    ensures s in r.connection.entries && s !in r.retryConn.entries
    ensures r.sent == w.sent + [Packet(s, SetClientId(w.id))]
    ensures forall x :: x != s ==> r.connection.Get(x) == w.connection.Get(x) && r.retryConn.Get(x) == w.retryConn.Get(x)
  {
    w.(connection := w.connection.Put(s, Socket(w.nextSocket)), nextSocket := w.nextSocket + 1,
       retryConn := w.retryConn.Remove(s), sent := w.sent + [Packet(s, SetClientId(w.id))])
  }

  /** A due server that does not answer: its stamp moves to `now`. */
  function Postpone(w: Worker, s: string, now: int): (r: Worker)
    requires Valid(w) && s in w.retryConn.entries
    ensures Valid(r) && (Covered(w) ==> Covered(r)) && SameJobs(w, r)
    ensures r.retryConn.Get(s) == Some(now) && r.connection == w.connection && r.sent == w.sent
    ensures forall x :: x != s ==> r.retryConn.Get(x) == w.retryConn.Get(x)
  {
    w.(retryConn := w.retryConn.Put(s, now))
  }

  /** The retry `foreach`, over the servers `ks` waiting when it
      started. */
  function RetryAll(rt: Retried, ks: seq<string>, tick: Tick): (r: Retried)
    requires Valid(rt.worker) && WaitingAll(rt.worker, ks)
    ensures Valid(r.worker) && (Covered(rt.worker) ==> Covered(r.worker)) && SameJobs(rt.worker, r.worker)
    ensures rt.changed ==> r.changed
    ensures |r.worker.sent| >= |rt.worker.sent| && r.worker.sent[..|rt.worker.sent|] == rt.worker.sent
    ensures Quiet(r.worker.sent[|rt.worker.sent|..])
    decreases |ks|
  {
    if |ks| == 0 then
      assert rt.worker.sent[|rt.worker.sent|..] == [];
      rt
    else
      var next := RetryOne(rt, ks[0], tick);
      WaitingTail(rt.worker, next.worker, ks);
      var r := RetryAll(next, ks[1..], tick);
      assert next.worker.sent[..|rt.worker.sent|] == rt.worker.sent;
      assert Quiet(next.worker.sent[|rt.worker.sent|..]);
      QuietJoin(rt.worker.sent, next.worker.sent, r.worker.sent);
      r
  }

  lemma WaitingTail(w: Worker, w': Worker, ks: seq<string>)
    requires WaitingAll(w, ks) && |ks| > 0
    requires forall x :: x != ks[0] ==> w'.retryConn.Get(x) == w.retryConn.Get(x)
    ensures WaitingAll(w', ks[1..])
  {
    forall i | 0 <= i < |ks[1..]|
      ensures ks[1..][i] in w'.retryConn.entries
    {
      assert ks[1..][i] == ks[i + 1] && ks[i + 1] != ks[0];
      assert w'.retryConn.Get(ks[i + 1]) == w.retryConn.Get(ks[i + 1]);
    }
  }

  /** The backoff: a waiting server that is not yet due keeps its stamp
      and stays closed; a due server that is reached is open and no longer
      waiting; a due server that is not reached is stamped with the
      pass's time. Servers not iterated over keep their state. */
  lemma {:induction false} RetryAllServer(rt: Retried, ks: seq<string>, tick: Tick, x: string)
    requires Valid(rt.worker) && WaitingAll(rt.worker, ks)
    ensures var r := RetryAll(rt, ks, tick).worker;
      && (x in ks && !Due(rt.worker.retryConn.entries[x], tick.now) ==>
            r.retryConn.Get(x) == rt.worker.retryConn.Get(x) && r.connection.Get(x) == rt.worker.connection.Get(x))
      && (x in ks && Due(rt.worker.retryConn.entries[x], tick.now) && x in tick.reachable ==>
            x in r.connection.entries && x !in r.retryConn.entries)
      && (x in ks && Due(rt.worker.retryConn.entries[x], tick.now) && x !in tick.reachable ==>
            r.retryConn.Get(x) == Some(tick.now) && r.connection.Get(x) == rt.worker.connection.Get(x))
      && (x !in ks ==>
            r.retryConn.Get(x) == rt.worker.retryConn.Get(x) && r.connection.Get(x) == rt.worker.connection.Get(x))
    decreases |ks|
  {
    if |ks| > 0 {
      var next := RetryOne(rt, ks[0], tick);
      WaitingTail(rt.worker, next.worker, ks);
      RetryAllServer(next, ks[1..], tick, x);
      InTail(ks, x);
      assert ks[0] !in ks[1..];
    }
  }

  /** `$retryChange` is set exactly when some due server was reached. */
  lemma {:induction false} RetryAllChanged(rt: Retried, ks: seq<string>, tick: Tick)
    requires Valid(rt.worker) && WaitingAll(rt.worker, ks)
    ensures RetryAll(rt, ks, tick).changed <==> (rt.changed ||
      exists i :: 0 <= i < |ks| && Due(rt.worker.retryConn.entries[ks[i]], tick.now) && ks[i] in tick.reachable)
    decreases |ks|
  {
    if |ks| > 0 {
      var next := RetryOne(rt, ks[0], tick);
      WaitingTail(rt.worker, next.worker, ks);
      RetryAllChanged(next, ks[1..], tick);
      forall i | 0 <= i < |ks[1..]|
        ensures next.worker.retryConn.entries[ks[1..][i]] == rt.worker.retryConn.entries[ks[i + 1]]
      {
        assert ks[1..][i] == ks[i + 1] && ks[i + 1] != ks[0];
        assert next.worker.retryConn.Get(ks[i + 1]) == rt.worker.retryConn.Get(ks[i + 1]);
      }
      if exists i :: 0 <= i < |ks| && Due(rt.worker.retryConn.entries[ks[i]], tick.now) && ks[i] in tick.reachable {
        var i :| 0 <= i < |ks| && Due(rt.worker.retryConn.entries[ks[i]], tick.now) && ks[i] in tick.reachable;
        if i > 0 {
          assert ks[1..][i - 1] == ks[i];
        }
      }
    }
  }

  /** `pre_sleep` to each of `servers`, in order. */
  function PreSleeps(servers: seq<string>): (r: seq<Packet>)
    ensures |r| == |servers|
    ensures forall i :: 0 <= i < |r| ==> r[i] == Packet(servers[i], PreSleep)
  {
    seq(|servers|, i requires 0 <= i < |servers| => Packet(servers[i], PreSleep))
  }

  /** Whether a pass sleeps: nothing was done and a connection is still
      open (`$sleep && count($this->connection)`). */
  predicate Sleeps(w: Worker, worked: bool) {
    !worked && |w.connection.keys| > 0
  }

  /** The idle step of a pass: `pre_sleep` to every open connection when
      the pass sleeps. */
  function Doze(w: Worker, worked: bool): (r: Worker)
    requires Valid(w)
    ensures Valid(r) && (Covered(w) ==> Covered(r)) && SameJobs(w, r)
    ensures r.connection == w.connection && r.retryConn == w.retryConn
    ensures |r.sent| >= |w.sent| && r.sent[..|w.sent|] == w.sent
    ensures Sleeps(w, worked) ==> r.sent[|w.sent|..] == PreSleeps(w.connection.keys)
    ensures !Sleeps(w, worked) ==> r.sent == w.sent
  {
    if Sleeps(w, worked) then
      var r := w.(sent := w.sent + PreSleeps(w.connection.keys));
      assert r.sent[..|w.sent|] == w.sent && r.sent[|w.sent|..] == PreSleeps(w.connection.keys);
      r
    else w
  }

  /** The last step of a pass: announce the functions again after a
      successful retry. */
  function Reannounce(rt: Retried): (r: Worker)
    requires Valid(rt.worker)
    ensures Valid(r) && (Covered(rt.worker) ==> Covered(r)) && SameJobs(rt.worker, r)
    ensures r.connection == rt.worker.connection && r.retryConn == rt.worker.retryConn
    ensures |r.sent| >= |rt.worker.sent| && r.sent[..|rt.worker.sent|] == rt.worker.sent
    ensures !rt.changed ==> r == rt.worker
    ensures rt.changed ==> r == Register(rt.worker)
  {
    if rt.changed then Register(rt.worker) else rt.worker
  }

  lemma PrefixChain(a: seq<Packet>, b: seq<Packet>, c: seq<Packet>)
    requires |a| <= |b| <= |c| && b[..|a|] == a && c[..|b|] == b
    ensures c[..|a|] == a
  {
    assert c[..|a|] == c[..|b|][..|a|];
  }

  /** The outcome of one pass: the worker, `$lastJob`, `$idle` as the
      monitor receives it, and the callbacks run. */
  datatype Passed = Passed(worker: Worker, lastJob: int, idle: bool, events: seq<Event>)

  /** The rest of a pass once the first `foreach` is over: the idle step,
      the retry `foreach` and the announcement after a successful
      retry. */
  function FinishPass(served: Serving, tick: Tick): (r: Passed)
    requires Valid(served.worker)
    ensures Valid(r.worker) && (Covered(served.worker) ==> Covered(r.worker))
    ensures SameJobs(served.worker, r.worker)
    ensures |r.worker.sent| >= |served.worker.sent| && r.worker.sent[..|served.worker.sent|] == served.worker.sent
    ensures r.lastJob == served.lastJob && r.events == served.events
  {
    var w2 := Doze(served.worker, served.worked);
    WaitingKeys(w2);
    var retried := RetryAll(Retried(w2, false), w2.retryConn.keys, tick);
    var w3 := Reannounce(retried);
    PrefixChain(served.worker.sent, w2.sent, retried.worker.sent);
    PrefixChain(served.worker.sent, retried.worker.sent, w3.sent);
    Passed(w3, served.lastJob, Sleeps(served.worker, served.worked) && !tick.readable, served.events)
  }

  /** One pass of the `while ($working)` loop of `work()`, up to the
      monitor call: run `doWork` on every open connection, send
      `pre_sleep` and wait when nothing was done, retry the servers whose
      backoff has passed, and announce the functions again when a retry
      succeeded. An engine error from `doWork` ends the loop. */
  function WorkPass(w: Worker, lastJob: int, tick: Tick): (r: Result<Passed>)
    requires Valid(w)
    ensures r.Err? ==> Uncaught(r.error)
    ensures r.Ok? ==> Valid(r.value.worker) && (Covered(w) ==> Covered(r.value.worker))
    ensures r.Ok? ==> SameJobs(w, r.value.worker)
    ensures r.Ok? ==> |r.value.worker.sent| >= |w.sent| && r.value.worker.sent[..|w.sent|] == w.sent
  {
    OpenKeys(w);
    var served :- ServeAll(Serving(w, lastJob, false, []), w.connection.keys, tick);
    var r := FinishPass(served, tick);
    PrefixChain(w.sent, served.worker.sent, r.worker.sent);
    Ok(r)
  }

  /** What a pass does to each server: an open server whose `doWork`
      raised an exception ends the pass waiting with the pass's time as
      its stamp (too recent to be retried in the same pass); any other
      open server stays open. A waiting server is retried only when its
      backoff has strictly passed: before that it keeps its stamp and
      stays closed; when due, it ends open if reached and is stamped with
      the pass's time if not. */
  lemma WorkPassServer(w: Worker, lastJob: int, tick: Tick, x: string)
    requires Valid(w) && WorkPass(w, lastJob, tick).Ok?
    ensures var r := WorkPass(w, lastJob, tick).value.worker;
      && (x in w.connection.entries && Throws(w, x, tick) ==>
            x !in r.connection.entries && r.retryConn.Get(x) == Some(tick.now))
      && (x in w.connection.entries && !Throws(w, x, tick) ==> x in r.connection.entries)
      && (x in w.retryConn.entries && !Due(w.retryConn.entries[x], tick.now) ==>
            x !in r.connection.entries && r.retryConn.Get(x) == w.retryConn.Get(x))
      && (x in w.retryConn.entries && Due(w.retryConn.entries[x], tick.now) && x in tick.reachable ==>
            x in r.connection.entries && x !in r.retryConn.entries)
      && (x in w.retryConn.entries && Due(w.retryConn.entries[x], tick.now) && x !in tick.reachable ==>
            x !in r.connection.entries && r.retryConn.Get(x) == Some(tick.now))
  {
    OpenKeys(w);
    var st := Serving(w, lastJob, false, []);
    var served := ServeAll(st, w.connection.keys, tick).value;
    var w2 := Doze(served.worker, served.worked);
    WaitingKeys(w2);
    var retried := RetryAll(Retried(w2, false), w2.retryConn.keys, tick);
    ServeAllServer(st, w.connection.keys, tick, x);
    RetryAllServer(Retried(w2, false), w2.retryConn.keys, tick, x);
  }

  /** A pass reports idle exactly when no connection did a job, some
      connection is still open after the first `foreach`, and
      `socket_select` found nothing readable. */
  lemma WorkPassIdle(w: Worker, lastJob: int, tick: Tick)
    requires Valid(w) && WorkPass(w, lastJob, tick).Ok?
    ensures WorkPass(w, lastJob, tick).value.idle <==>
      && (forall i :: 0 <= i < |w.connection.keys| ==> !Works(w, w.connection.keys[i], tick))
      && (exists i :: 0 <= i < |w.connection.keys| && !Throws(w, w.connection.keys[i], tick))
      && !tick.readable
  {
    OpenKeys(w);
    var ks := w.connection.keys;
    var st := Serving(w, lastJob, false, []);
    var served := ServeAll(st, ks, tick).value;
    ServeAllWorked(st, ks, tick);
    SurvivorsOpen(w, lastJob, tick);
  }

  /** Some connection is still open after the first `foreach` exactly
      when some open server's `doWork` did not raise an exception. */
  lemma SurvivorsOpen(w: Worker, lastJob: int, tick: Tick)
    requires Valid(w) && ServeAll(Serving(w, lastJob, false, []), w.connection.keys, tick).Ok?
    ensures var served := ServeAll(Serving(w, lastJob, false, []), w.connection.keys, tick).value;
      |served.worker.connection.keys| > 0 <==>
        exists i :: 0 <= i < |w.connection.keys| && !Throws(w, w.connection.keys[i], tick)
  {
    OpenKeys(w);
    var ks := w.connection.keys;
    var st := Serving(w, lastJob, false, []);
    var r := ServeAll(st, ks, tick).value.worker;
    if |r.connection.keys| > 0 {
      var y := r.connection.keys[0];
      ServeAllServer(st, ks, tick, y);
      assert y in ks;
      var i :| 0 <= i < |ks| && ks[i] == y;
      assert !Throws(w, ks[i], tick);
    }
    if exists i :: 0 <= i < |ks| && !Throws(w, ks[i], tick) {
      var i :| 0 <= i < |ks| && !Throws(w, ks[i], tick);
      ServeAllServer(st, ks, tick, ks[i]);
      assert ks[i] in r.connection.entries;
      assert ks[i] in r.connection.keys;
    }
  }

  /** Registering sends no `pre_sleep`. */
  lemma RegisterQuiet(w: Worker)
    requires Valid(w)
    ensures Quiet(Register(w).sent[|w.sent|..])
  {
    var a := Announcements(w.functions.keys, w.connection.keys);
    AnnouncementsCover(w.functions.keys, w.connection.keys);
    assert Register(w).sent[|w.sent|..] == a;
    forall i | 0 <= i < |a|
      ensures a[i].command != PreSleep
    {
      assert a[i] in a;
    }
  }

  /** A `pre_sleep` in a log extended by quiet packets, then `m`, then
      quiet packets again, comes from `m`. */
  lemma QuietAround(a: seq<Packet>, b: seq<Packet>, m: seq<Packet>, c: seq<Packet>, e: seq<Packet>, p: Packet)
    requires |a| <= |b| && b[..|a|] == a && Quiet(b[|a|..])
    requires c == b + m
    requires |c| <= |e| && e[..|c|] == c && Quiet(e[|c|..])
    requires p.command == PreSleep
    ensures p in e[|a|..] <==> p in m
  {
    var tail := e[|c|..];
    assert e[|a|..] == b[|a|..] + m + tail by {
      assert e == e[..|c|] + tail;
    }
  }

  /** The retry step and the announcement after it send no
      `pre_sleep`. */
  lemma RetryQuiet(w: Worker, tick: Tick)
    requires Valid(w)
    ensures var r := Reannounce(RetryAll(Retried(w, false), w.retryConn.keys, tick));
      |r.sent| >= |w.sent| && r.sent[..|w.sent|] == w.sent && Quiet(r.sent[|w.sent|..])
  {
    var retried := RetryAll(Retried(w, false), w.retryConn.keys, tick);
    if retried.changed {
      RegisterQuiet(retried.worker);
      QuietJoin(w.sent, retried.worker.sent, Register(retried.worker).sent);
    }
  }

  /** The `pre_sleep` packets of a pass are those of its idle step. */
  lemma PassPreSleepsFromDoze(sent: seq<Packet>, w1: Worker, worked: bool, tick: Tick, x: string)
    requires Valid(w1)
    requires |w1.sent| >= |sent| && w1.sent[..|sent|] == sent && Quiet(w1.sent[|sent|..])
    ensures var w2 := Doze(w1, worked);
      var w3 := Reannounce(RetryAll(Retried(w2, false), w2.retryConn.keys, tick));
      Packet(x, PreSleep) in w3.sent[|sent|..] <==> Sleeps(w1, worked) && x in w1.connection.entries
  {
    var w2 := Doze(w1, worked);
    var w3 := Reannounce(RetryAll(Retried(w2, false), w2.retryConn.keys, tick));
    var m := if Sleeps(w1, worked) then PreSleeps(w1.connection.keys) else [];
    assert w2.sent == w1.sent + m;
    RetryQuiet(w2, tick);
    QuietAround(sent, w1.sent, m, w2.sent, w3.sent, Packet(x, PreSleep));
    PreSleepsMember(w1.connection.keys, x);
  }

  lemma PreSleepsMember(servers: seq<string>, x: string)
    ensures Packet(x, PreSleep) in PreSleeps(servers) <==> x in servers
  {
    if x in servers {
      var i :| 0 <= i < |servers| && servers[i] == x;
      assert PreSleeps(servers)[i] == Packet(x, PreSleep);
    }
  }

  /** A pass sends `pre_sleep` to a server exactly when no connection did
      a job and that server's connection is still open after the first
      `foreach`; it sends no other `pre_sleep`. */
  lemma WorkPassPreSleep(w: Worker, lastJob: int, tick: Tick, x: string)
    requires Valid(w) && WorkPass(w, lastJob, tick).Ok?
    ensures Packet(x, PreSleep) in WorkPass(w, lastJob, tick).value.worker.sent[|w.sent|..] <==>
      && (forall i :: 0 <= i < |w.connection.keys| ==> !Works(w, w.connection.keys[i], tick))
      && x in w.connection.entries && !Throws(w, x, tick)
  {
    OpenKeys(w);
    var ks := w.connection.keys;
    var st := Serving(w, lastJob, false, []);
    var served := ServeAll(st, ks, tick).value;
    PassPreSleepsFromDoze(w.sent, served.worker, served.worked, tick, x);
    ServeAllWorked(st, ks, tick);
    ServeAllServer(st, ks, tick, x);
    if x in served.worker.connection.entries {
      assert x in served.worker.connection.keys;
    }
  }

  /** A pass fails exactly when some open server's `doWork` raised an
      engine error, which no `catch (\Exception)` intercepts. */
  lemma WorkPassFails(w: Worker, lastJob: int, tick: Tick)
    requires Valid(w)
    ensures WorkPass(w, lastJob, tick).Err? <==>
      exists i :: 0 <= i < |w.connection.keys| && Escapes(w, w.connection.keys[i], tick)
  {
    OpenKeys(w);
    ServeAllEscapes(Serving(w, lastJob, false, []), w.connection.keys, tick);
  }

  /** `$lastJob` moves only when the pass did a job, and then to the time
      read after one of the jobs it did. */
  lemma WorkPassLastJob(w: Worker, lastJob: int, tick: Tick)
    requires Valid(w) && WorkPass(w, lastJob, tick).Ok?
    ensures var r := WorkPass(w, lastJob, tick).value;
      && ((forall i :: 0 <= i < |w.connection.keys| ==> !Works(w, w.connection.keys[i], tick)) ==> r.lastJob == lastJob)
      && (r.lastJob == lastJob ||
            exists i :: 0 <= i < |w.connection.keys| && Works(w, w.connection.keys[i], tick)
                        && r.lastJob == tick.turn(w.connection.keys[i]).clock)
  {
    OpenKeys(w);
    ServeAllLastJob(Serving(w, lastJob, false, []), w.connection.keys, tick);
  }

  /** After a pass in which a retry succeeded, every function is announced
      on every connection then open. */
  lemma WorkPassReannounces(w: Worker, lastJob: int, tick: Tick, r: Passed, f: string, x: string)
    requires Valid(w) && WorkPass(w, lastJob, tick) == Ok(r)
    requires exists i :: (0 <= i < |w.retryConn.keys| &&
      Due(w.retryConn.entries[w.retryConn.keys[i]], tick.now) && w.retryConn.keys[i] in tick.reachable)
    requires f in w.functions.entries && x in r.worker.connection.entries
    ensures Packet(x, CanDo(f)) in r.worker.sent[|w.sent|..]
  {
    OpenKeys(w);
    var st := Serving(w, lastJob, false, []);
    var served := ServeAll(st, w.connection.keys, tick).value;
    var i :| 0 <= i < |w.retryConn.keys| &&
      Due(w.retryConn.entries[w.retryConn.keys[i]], tick.now) && w.retryConn.keys[i] in tick.reachable;
    var s := w.retryConn.keys[i];
    ServeAllServer(st, w.connection.keys, tick, s);
    FinishPassReannounces(served, tick, s, |w.sent|, f, x);
  }

  /** The end of a pass in which the due server `s` is reached announces
      every function on every connection then open. */
  lemma FinishPassReannounces(served: Serving, tick: Tick, s: string, n: nat, f: string, x: string)
    requires Valid(served.worker) && s in served.worker.retryConn.entries
    requires Due(served.worker.retryConn.entries[s], tick.now) && s in tick.reachable
    requires n <= |served.worker.sent| && f in served.worker.functions.entries
    requires x in FinishPass(served, tick).worker.connection.entries
    ensures Packet(x, CanDo(f)) in FinishPass(served, tick).worker.sent[n..]
  {
    var w2 := Doze(served.worker, served.worked);
    RetryChangedWhenDue(w2, tick, s);
    WaitingKeys(w2);
    var retried := RetryAll(Retried(w2, false), w2.retryConn.keys, tick);
    var w3 := FinishPass(served, tick).worker;
    assert w3 == Register(retried.worker);
    AnnouncedAfter(n, retried.worker, w3.sent, f, x);
  }

  lemma OpenKeys(w: Worker)
    requires Valid(w)
    ensures OpenAll(w, w.connection.keys)
  {
  }

  lemma WaitingKeys(w: Worker)
    requires Valid(w)
    ensures WaitingAll(w, w.retryConn.keys)
  {
  }

  /** A due server that is reached sets `$retryChange`. */
  lemma RetryChangedWhenDue(w: Worker, tick: Tick, s: string)
    requires Valid(w) && s in w.retryConn.entries
    requires Due(w.retryConn.entries[s], tick.now) && s in tick.reachable
    ensures RetryAll(Retried(w, false), w.retryConn.keys, tick).changed
  {
    var j :| 0 <= j < |w.retryConn.keys| && w.retryConn.keys[j] == s;
    RetryAllChanged(Retried(w, false), w.retryConn.keys, tick);
  }

  /** Announcing puts `can_do(f)` to `x` past any point of the log up to
      its old end. */
  lemma AnnouncedAfter(n: nat, w: Worker, log: seq<Packet>, f: string, x: string)
    requires Valid(w) && n <= |w.sent| && log == Register(w).sent
    requires f in w.functions.entries && x in w.connection.entries
    ensures Packet(x, CanDo(f)) in log[n..]
  {
    RegisterAnnounces(w);
    var p := Packet(x, CanDo(f));
    assert p in Register(w).sent[|w.sent|..];
    var k :| 0 <= k < |Register(w).sent[|w.sent|..]| && Register(w).sent[|w.sent|..][k] == p;
    assert Register(w).sent[n..][|w.sent| - n + k] == p;
  }

  // ---------------------------------------------------------------------
  // The work loop

  /** The `$monitor` callable: it receives `$idle` and `$lastJob` after
      every pass and stops the loop by returning true. */
  type Monitor = (bool, int) -> bool

  /** `stopWork()`, the monitor used when none is callable. */
  function StopWork(idle: bool, lastJob: int): bool {
    false
  }

  /** How a run of the loop ended: the monitor stopped it after a pass
      (with the `$idle` it was given), or the passes given ran out. */
  datatype Ending = Stopped(idle: bool) | Unstopped

  /** The worker after the loop, `$lastJob`, the callbacks run, the number
      of passes made and how the loop ended. */
  datatype Session = Session(worker: Worker, lastJob: int, events: seq<Event>, passes: nat, ending: Ending)

  /** `while ($working)` over the passes `ticks`: a pass's engine error
      ends the loop with that error, and the monitor's true ends it after
      the pass it was called for. */
  function WorkLoop(w: Worker, lastJob: int, monitor: Monitor, ticks: seq<Tick>): (r: Result<Session>)
    requires Valid(w)
    ensures r.Err? ==> Uncaught(r.error)
    ensures r.Ok? ==> Valid(r.value.worker) && (Covered(w) ==> Covered(r.value.worker))
    ensures r.Ok? ==> SameJobs(w, r.value.worker)
    ensures r.Ok? ==> |r.value.worker.sent| >= |w.sent| && r.value.worker.sent[..|w.sent|] == w.sent
    ensures r.Ok? ==> 0 < r.value.passes <= |ticks| || (r.value.passes == 0 && ticks == [])
    ensures r.Ok? && r.value.ending.Unstopped? ==> r.value.passes == |ticks|
    ensures r.Ok? && r.value.ending.Stopped? ==> monitor(r.value.ending.idle, r.value.lastJob)
    decreases |ticks|
  {
    if |ticks| == 0 then Ok(Session(w, lastJob, [], 0, Unstopped))
    else
      var p :- WorkPass(w, lastJob, ticks[0]);
      if monitor(p.idle, p.lastJob) then Ok(Session(p.worker, p.lastJob, p.events, 1, Stopped(p.idle)))
      else
        var rest :- WorkLoop(p.worker, p.lastJob, monitor, ticks[1..]);
        PrefixChain(w.sent, p.worker.sent, rest.worker.sent);
        Ok(rest.(events := p.events + rest.events, passes := rest.passes + 1))
  }

  /** `work($monitor)`: connect to every server, announce the functions,
      read the clock for `$lastJob` and run the loop; a monitor that is
      not callable is replaced by `stopWork`. The single `start` stands
      for the clock reads before the loop. */
  function Work(w: Worker, start: int, reachable: set<string>, monitor: Option<Monitor>, ticks: seq<Tick>)
    : (r: Result<Session>)
    requires Valid(w) && w.connection.keys == [] && w.retryConn.keys == []
    ensures (forall s :: s in w.servers.entries ==> s !in reachable) ==> r == Err(NoServerConnected)
    ensures (exists s :: s in w.servers.entries && s in reachable) ==> r.Ok? || Uncaught(r.error)
    ensures r.Ok? ==> Valid(r.value.worker) && Covered(r.value.worker) && SameJobs(w, r.value.worker)
    ensures r.Ok? ==> |r.value.worker.sent| >= |w.sent| && r.value.worker.sent[..|w.sent|] == w.sent
  {
    var connected :- ConnectToAllServers(w, reachable, start);
    var registered := Register(connected);
    var m := if monitor.Some? then monitor.value else StopWork;
    var r := WorkLoop(registered, start, m, ticks);
    if r.Ok? then
      PrefixChain(w.sent, connected.sent, registered.sent);
      PrefixChain(w.sent, registered.sent, r.value.worker.sent);
      r
    else
      assert Uncaught(r.error);
      r
  }

  /** Without a callable monitor the loop never stops by itself: it runs
      every pass it is given, unless an engine error ends it. */
  lemma DefaultMonitorNeverStops(w: Worker, start: int, reachable: set<string>, ticks: seq<Tick>)
    requires Valid(w) && w.connection.keys == [] && w.retryConn.keys == []
    requires Work(w, start, reachable, None, ticks).Ok?
    ensures Work(w, start, reachable, None, ticks).value.ending.Unstopped?
    ensures Work(w, start, reachable, None, ticks).value.passes == |ticks|
  {
  }

  /** A monitor that always answers true stops the loop after the first
      pass. */
  lemma EagerMonitorStopsAtOnce(w: Worker, lastJob: int, monitor: Monitor, ticks: seq<Tick>)
    requires Valid(w) && |ticks| > 0
    requires forall idle, t :: monitor(idle, t)
    requires WorkLoop(w, lastJob, monitor, ticks).Ok?
    ensures WorkLoop(w, lastJob, monitor, ticks).value.passes == 1
    ensures WorkLoop(w, lastJob, monitor, ticks).value.ending.Stopped?
  {
  }
}
