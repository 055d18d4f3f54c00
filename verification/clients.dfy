/** The submitting side (src/Client.php): the server list, the pool of open
    connections, the per-connection queue of submissions still waiting for
    their `job_created`, and the `runSet` loop that submits a set's tasks
    and dispatches the decoded responses.

    The socket layer is not part of this model. A connection is identified
    by the integer id PHP derives from the socket. What `socket_select`
    reports readable and what `Connection::read` decodes are given to each
    loop pass as a list of deliveries. The clock (`microtime`) is an input
    of each pass, and the `array_rand` pick is an injected index into the
    pool. */
module Clients {
  import opened Errors
  import opened Strings
  import opened OrderedMaps
  import opened Tasks
  import opened TaskSets
  import opened ServerLists

  /** An open socket: its id (`spl_object_id` / `intval` of the socket,
      which keys the waiting queues) and the server it was opened to. */
  datatype Conn = Conn(id: nat, server: string)

  /** The fields of a submit packet; `epoch` is present only for epoch
      jobs. */
  datatype Params = Params(func: string, uniq: string, arg: string, epoch: Option<int>)

  /** One packet written by `Connection::send`. */
  datatype Request = Request(conn: Conn, command: string, params: Params)

  /** The client: registered servers, open connections in the order they
      were opened, the waiting queues (`Connection::$waiting`, holding the
      uniqueness keys of submitted tasks), every packet sent so far, and the
      number of sockets opened, which supplies fresh ids. */
  datatype Client = Client(
    servers: Servers,
    conns: seq<Conn>,
    waiting: map<Conn, seq<string>>,
    sent: seq<Request>,
    nextId: nat)

  /** A decoded response packet: the commands the dispatcher knows, and any
      other command with its handle field, if it has one. */
  datatype Response =
    | JobCreated(handle: string)
    | WorkComplete(handle: string, result: string)
    | WorkStatus(handle: string, numerator: string, denominator: string)
    | WorkFail(handle: string)
    | ServerError(errorCode: string, errorText: string)
    | Other(name: string, otherHandle: Option<string>)

  /** `new Client()`: no servers, no connections. */
  function NewClient(): (c: Client)
    ensures c.servers.Valid() && c.servers.keys == [] && c.conns == [] && c.sent == []
  {
    Client(Empty(), [], map[], [], 0)
  }

  /** `addServer` on the client. */
  function AddClientServer(c: Client, host: string, port: Option<int>): (r: Result<Client>)
    requires c.servers.Valid()
    ensures r.Ok? <==> AddServer(c.servers, host, port).Ok?
    ensures r.Err? ==> r.error == AddServer(c.servers, host, port).error
    ensures r.Ok? ==> r.value == c.(servers := AddServer(c.servers, host, port).value)
  {
    var servers :- AddServer(c.servers, host, port);
    Ok(c.(servers := servers))
  }

  /** The submit command for a job type; unknown types fall back to the
      plain `submit_job`. */
  function SubmitCommand(jobType: int): string {
    match jobType
    case 5 => "submit_job_low"
    case 6 => "submit_job_low_bg"
    case 4 => "submit_job_high_bg"
    case 2 => "submit_job_bg"
    case 7 => "submit_job_epoch"
    case 3 => "submit_job_high"
    case _ => "submit_job"
  }

  /** A job type goes to the server as fire-and-forget exactly when its
      command is one of the four background commands, and every job type
      of its own command: distinct known types never share a command. */
  lemma SubmitCommandClasses(jobType: int, other: int)
    ensures IsBackgroundClass(jobType) <==>
      SubmitCommand(jobType) in {"submit_job_bg", "submit_job_high_bg", "submit_job_low_bg", "submit_job_epoch"}
    ensures 1 <= jobType <= 7 && 1 <= other <= 7 && jobType != other ==>
      SubmitCommand(jobType) != SubmitCommand(other)
    ensures !(2 <= jobType <= 7) ==> SubmitCommand(jobType) == "submit_job"
  {
  }

  /** The packet fields for a task. */
  function SubmitParams(t: Task): (p: Params)
    ensures p.func == t.func && p.uniq == t.uniq && p.arg == t.arg
    ensures p.epoch.Some? <==> t.jobType == JOB_EPOCH
    ensures p.epoch.Some? ==> p.epoch.value == t.epoch
  {
    Params(t.func, t.uniq, t.arg, if t.jobType == JOB_EPOCH then Some(t.epoch) else None)
  }

  /** The waiting queue of one connection; a connection never written to
      has none, which PHP treats as empty when appending. */
  function Queue(c: Client, conn: Conn): seq<string> {
    if conn in c.waiting then c.waiting[conn] else []
  }

  /** `submitTask($task)`: send the task on the picked connection and queue
      its key on that connection. An empty pool makes `array_rand` fail. */
  function SubmitTask(c: Client, t: Task, pick: nat): (r: Result<Client>)
    ensures r.Err? <==> |c.conns| == 0
    ensures r.Err? ==> r.error == NoOpenConnection
    ensures r.Ok? ==>
      var conn := c.conns[pick % |c.conns|];
      && r.value.sent == c.sent + [Request(conn, SubmitCommand(t.jobType), SubmitParams(t))]
      && r.value.waiting == c.waiting[conn := Queue(c, conn) + [t.uniq]]
      && r.value.servers == c.servers && r.value.conns == c.conns && r.value.nextId == c.nextId
  {
    if |c.conns| == 0 then Err(NoOpenConnection)
    else
      var conn := c.conns[pick % |c.conns|];
      Ok(c.(sent := c.sent + [Request(conn, SubmitCommand(t.jobType), SubmitParams(t))],
            waiting := c.waiting[conn := Queue(c, conn) + [t.uniq]]))
  }

  /** The client and set after one response, and the callbacks it ran. */
  datatype Handled = Handled(client: Client, batch: TaskSet, events: seq<Event>)

  /** The handle a response carries, when it is looked up in the set before
      dispatching (every handle-bearing response except `job_created`). */
  function LookupHandle(resp: Response): Option<string> {
    match resp
    case WorkComplete(h, _) => Some(h)
    case WorkStatus(h, _, _) => Some(h)
    case WorkFail(h) => Some(h)
    case Other(_, h) => h
    case _ => None
  }

  /** Files a task that changed back under its own key. */
  function Store(s: TaskSet, t: Task): (r: TaskSet)
    requires Valid(s) && t.uniq in s.tasks.entries
    ensures Valid(r) && r.tasks.keys == s.tasks.keys
    ensures r.tasks.entries == s.tasks.entries[t.uniq := t]
    ensures r.tasksCount == s.tasksCount && r.handles == s.handles && r.callback == s.callback
  {
    s.(tasks := s.tasks.Put(t.uniq, t))
  }

  /** `job_created` on `conn`: the oldest submission waiting on that
      connection receives the handle. Only a plain background job is marked
      finished here. The handle is recorded against the key even when the
      task is not one of this set's (a submission left over from an earlier
      run). */
  function Acknowledge(c: Client, s: TaskSet, conn: Conn, handle: string): (r: Result<Handled>)
    requires Valid(s)
    ensures r.Err? <==> |Queue(c, conn)| == 0
    ensures r.Err? ==> r.error == NoPendingSubmission(conn.id)
    ensures r.Ok? ==>
      var key := Queue(c, conn)[0];
      && r.value.client == c.(waiting := c.waiting[conn := Queue(c, conn)[1..]])
      && r.value.batch.handles == s.handles[handle := key]
      && r.value.batch.tasks.keys == s.tasks.keys
      && r.value.batch.tasksCount == s.tasksCount
      && r.value.batch.callback == s.callback
      && r.value.events == []
      && Valid(r.value.batch)
      && (key in s.tasks.entries ==>
           var t := s.tasks.entries[key];
           r.value.batch.tasks.entries ==
             s.tasks.entries[key := t.(handle := handle, finished := t.finished || t.jobType == JOB_BACKGROUND)])
      && (key !in s.tasks.entries ==> r.value.batch.tasks == s.tasks)
  {
    var queue := Queue(c, conn);
    if |queue| == 0 then Err(NoPendingSubmission(conn.id))
    else
      var key := queue[0];
      var c' := c.(waiting := c.waiting[conn := queue[1..]]);
      var s' :=
        if key in s.tasks.entries then
          var t := s.tasks.entries[key];
          var t' := t.(handle := handle, finished := if t.jobType == JOB_BACKGROUND then true else t.finished);
          Store(s, t')
        else s;
      Ok(Handled(c', s'.(handles := s.handles[handle := key]), []))
  }

  /** `handleResponse($resp, $socket, $set)`. */
  function HandleResponse(c: Client, s: TaskSet, conn: Conn, resp: Response): (r: Result<Handled>)
    requires Valid(s)
    ensures r.Ok? ==> Valid(r.value.batch) && r.value.batch.tasks.keys == s.tasks.keys
    ensures r.Ok? ==> r.value.batch.callback == s.callback
    ensures r.Ok? ==> r.value.client.(waiting := c.waiting) == c
    ensures !resp.JobCreated? ==> r.Ok? ==> r.value.client == c
    ensures r.Ok? ==> forall e :: e in r.value.events ==> !e.SetCalled?
    // a handle the set cannot resolve is an error before anything else
    ensures LookupHandle(resp).Some? && GetTask(s, LookupHandle(resp).value).Err? ==>
      r == Err(GetTask(s, LookupHandle(resp).value).error)
    ensures resp.ServerError? ==> r == Err(ErrorOccurred)
    ensures resp.Other? && (resp.otherHandle.None? || GetTask(s, resp.otherHandle.value).Ok?) ==>
      r == Err(InvalidFunction(resp.name))
    ensures resp.JobCreated? ==> r == Acknowledge(c, s, conn, resp.handle)
    ensures (resp.WorkComplete? || resp.WorkFail? || resp.WorkStatus?) ==>
      (r.Ok? <==> GetTask(s, LookupHandle(resp).value).Ok?)
    ensures resp.WorkComplete? && r.Ok? ==>
      var t := GetTask(s, resp.handle).value;
      && r.value.batch.tasksCount == s.tasksCount - 1
      && r.value.batch.tasks.entries == s.tasks.entries[t.uniq := Complete(t, resp.result).task]
      && r.value.batch.handles == s.handles
      && r.value.events == Complete(t, resp.result).events
    ensures resp.WorkFail? && r.Ok? ==>
      var t := GetTask(s, resp.handle).value;
      && r.value.batch.tasksCount == s.tasksCount - 1
      && r.value.batch.tasks.entries == s.tasks.entries[t.uniq := Fail(t).task]
      && r.value.batch.handles == s.handles
      && r.value.events == Fail(t).events
    ensures resp.WorkStatus? && r.Ok? ==>
      var t := GetTask(s, resp.handle).value;
      && r.value.batch == s
      && r.value.events == Status(t, IntCast(resp.numerator), IntCast(resp.denominator)).events
  {
    if LookupHandle(resp).Some? && GetTask(s, LookupHandle(resp).value).Err? then
      Err(GetTask(s, LookupHandle(resp).value).error)
    else
      match resp
      case WorkComplete(h, result) =>
        var t := GetTask(s, h).value;
        GetTaskMatchesHandle(s, h);
        var fired := Complete(t, result);
        var s' := Store(s, fired.task);
        Ok(Handled(c, s'.(tasksCount := s.tasksCount - 1), fired.events))
      case WorkStatus(h, numerator, denominator) =>
        var t := GetTask(s, h).value;
        Ok(Handled(c, s, Status(t, IntCast(numerator), IntCast(denominator)).events))
      case WorkFail(h) =>
        var t := GetTask(s, h).value;
        GetTaskMatchesHandle(s, h);
        var fired := Fail(t);
        var s' := Store(s, fired.task);
        Ok(Handled(c, s'.(tasksCount := s.tasksCount - 1), fired.events))
      case JobCreated(h) => Acknowledge(c, s, conn, h)
      case ServerError(_, _) => Err(ErrorOccurred)
      case Other(name, _) => Err(InvalidFunction(name))
  }

  /** The servers of `ks` that accept a connection, in order. */
  function Reachable(ks: seq<string>, reachable: set<string>): (r: seq<string>)
    ensures forall k :: k in r <==> k in ks && k in reachable
    ensures |r| <= |ks|
  {
    if |ks| == 0 then []
    else (if ks[0] in reachable then [ks[0]] else []) + Reachable(ks[1..], reachable)
  }

  /** The connections opened, with consecutive fresh ids, to `servers`. */
  function Opened(servers: seq<string>, firstId: nat): (r: seq<Conn>)
    ensures |r| == |servers|
  {
    if |servers| == 0 then [] else [Conn(firstId, servers[0])] + Opened(servers[1..], firstId + 1)
  }

  /** The `i`-th connection opened goes to the `i`-th server and has the
      `i`-th fresh id. */
  lemma {:induction false} OpenedAt(servers: seq<string>, firstId: nat, i: nat)
    requires i < |servers|
    ensures Opened(servers, firstId)[i] == Conn(firstId + i, servers[i])
    decreases i
  {
    if i > 0 {
      OpenedAt(servers[1..], firstId + 1, i - 1);
    }
  }

  /** The first `foreach` of `runSet` over the servers `ks`: a server that
      accepts a connection adds one to the pool, in registration order; a
      server that does not is unregistered. Connections already in the pool
      stay there. */
  function ConnectEach(c: Client, ks: seq<string>, reachable: set<string>): (r: Client)
    requires c.servers.Valid()
    ensures r.servers.Valid()
    ensures forall k :: k in r.servers.entries <==> k in c.servers.entries && (k in ks ==> k in reachable)
    ensures r.nextId == c.nextId + |Reachable(ks, reachable)|
    ensures r.waiting == c.waiting && r.sent == c.sent
    decreases |ks|
  {
    if |ks| == 0 then c
    else
      var k := ks[0];
      var c' :=
        if k in reachable then c.(conns := c.conns + [Conn(c.nextId, k)], nextId := c.nextId + 1)
        else c.(servers := c.servers.Remove(k));
      ConnectEach(c', ks[1..], reachable)
  }

  /** The pool gains one connection per reachable server, in registration
      order, with fresh consecutive ids. */
  lemma {:induction false} ConnectEachOpens(c: Client, ks: seq<string>, reachable: set<string>)
    requires c.servers.Valid()
    ensures ConnectEach(c, ks, reachable).conns == c.conns + Opened(Reachable(ks, reachable), c.nextId)
    decreases |ks|
  {
    if |ks| > 0 {
      var k := ks[0];
      OpenedCons(ks, reachable, c.nextId);
      ConnectEachUnfold(c, ks, reachable);
      if k in reachable {
        var x := Conn(c.nextId, k);
        var c' := c.(conns := c.conns + [x], nextId := c.nextId + 1);
        ConnectEachOpens(c', ks[1..], reachable);
        var later := Opened(Reachable(ks[1..], reachable), c.nextId + 1);
        assert (c.conns + [x]) + later == c.conns + ([x] + later);
      } else {
        var c' := c.(servers := c.servers.Remove(k));
        ConnectEachOpens(c', ks[1..], reachable);
      }
    }
  }

  /** One step of `ConnectEach`. */
  lemma ConnectEachUnfold(c: Client, ks: seq<string>, reachable: set<string>)
    requires c.servers.Valid() && |ks| > 0
    ensures ks[0] in reachable ==> (ConnectEach(c, ks, reachable)
      == ConnectEach(c.(conns := c.conns + [Conn(c.nextId, ks[0])], nextId := c.nextId + 1), ks[1..], reachable))
    ensures ks[0] !in reachable ==> (ConnectEach(c, ks, reachable)
      == ConnectEach(c.(servers := c.servers.Remove(ks[0])), ks[1..], reachable))
  {
  }

  lemma OpenedCons(ks: seq<string>, reachable: set<string>, firstId: nat)
    requires |ks| > 0
    ensures ks[0] in reachable ==> (Opened(Reachable(ks, reachable), firstId)
      == [Conn(firstId, ks[0])] + Opened(Reachable(ks[1..], reachable), firstId + 1))
    ensures ks[0] !in reachable ==> (Opened(Reachable(ks, reachable), firstId)
      == Opened(Reachable(ks[1..], reachable), firstId))
  {
    var tail := Reachable(ks[1..], reachable);
    if ks[0] in reachable {
      assert Reachable(ks, reachable) == [ks[0]] + tail;
      assert ([ks[0]] + tail)[1..] == tail;
    } else {
      assert Reachable(ks, reachable) == [] + tail;
      assert [] + tail == tail;
    }
  }

  function ConnectAll(c: Client, reachable: set<string>): (r: Client)
    requires c.servers.Valid()
    ensures r.servers.Valid()
  {
    ConnectEach(c, c.servers.keys, reachable)
  }

  /** After connecting, the registered servers are exactly the reachable
      ones, and the pool gained one connection per reachable server. */
  lemma ConnectAllKeepsReachable(c: Client, reachable: set<string>)
    requires c.servers.Valid()
    ensures forall k :: k in ConnectAll(c, reachable).servers.entries <==> k in c.servers.entries && k in reachable
    ensures |ConnectAll(c, reachable).conns| == |c.conns| + |Reachable(c.servers.keys, reachable)|
    ensures |ConnectAll(c, reachable).conns| > 0 <==> |c.conns| > 0 || exists k :: k in c.servers.entries && k in reachable
  {
    ConnectEachOpens(c, c.servers.keys, reachable);
    var ks := Reachable(c.servers.keys, reachable);
    if |ks| > 0 {
      assert ks[0] in c.servers.keys;
    }
  }

  /** The select timeout of `runSet`: the given timeout capped at 10
      seconds, or 10 without one. */
  function SocketTimeout(timeout: Option<int>): (r: int)
    ensures r <= 10
    ensures timeout.None? ==> r == 10
    ensures timeout.Some? ==> r <= timeout.value && (timeout.value <= 10 ==> r == timeout.value)
  {
    match timeout
    case None => 10
    case Some(t) => if t < 10 then t else 10
  }

  /** One response read from a socket the select reported readable. */
  datatype Delivery = Delivery(conn: Conn, response: Response)

  /** What one pass of the `runSet` loop observes: the clock, the pool
      index `array_rand` picks, and the responses read. `deliveries` may
      be any sequence of responses on any connections, which is more than
      `socket_select` and the reads can produce (only pool sockets, only
      what their servers sent); the properties proved hold for all of
      them. */
  datatype Pass = Pass(now: real, pick: nat, deliveries: seq<Delivery>)

  /** Why a run ended: the set reported finished, the timeout elapsed, or
      the given passes ran out while the PHP loop would keep waiting. */
  datatype Stop = SetFinished | TimedOut | InputExhausted

  /** The state after a run: `submitted` is the loop counter `$t`. */
  datatype Run = Run(client: Client, batch: TaskSet, submitted: nat, events: seq<Event>, stop: Stop)

  /** Dispatches the responses of one pass in order; the first failure
      aborts the run. */
  function Deliver(c: Client, s: TaskSet, ds: seq<Delivery>): (r: Result<Handled>)
    requires Valid(s)
    ensures r.Ok? ==> Valid(r.value.batch) && r.value.batch.tasks.keys == s.tasks.keys
    ensures r.Ok? ==> r.value.batch.callback == s.callback
    ensures r.Ok? ==> r.value.client.(waiting := c.waiting) == c
    ensures r.Ok? ==> forall e :: e in r.value.events ==> !e.SetCalled?
    decreases |ds|
  {
    if |ds| == 0 then Ok(Handled(c, s, []))
    else
      var h :- HandleResponse(c, s, ds[0].conn, ds[0].response);
      var rest :- Deliver(h.client, h.batch, ds[1..]);
      Ok(rest.(events := h.events + rest.events))
  }

  datatype Submitted = Submitted(client: Client, batch: TaskSet, next: nat)

  /** Every captured key still names a task of the set. */
  ghost predicate KeysFiled(s: TaskSet, keys: seq<string>) {
    forall i :: 0 <= i < |keys| ==> keys[i] in s.tasks.entries
  }

  /** The submitting half of a loop pass. While fewer than `total` tasks
      (the count captured when the run started) have been submitted, the
      task under key `keys[t]` (the keys captured then) is sent; a
      background-class task is marked finished and uncounted at once. */
  function SubmitNext(c: Client, s: TaskSet, keys: seq<string>, total: int, t: nat, pick: nat): (r: Result<Submitted>)
    requires Valid(s) && KeysFiled(s, keys)
    ensures t >= total ==> r == Ok(Submitted(c, s, t))
    ensures t < total ==> (r.Ok? <==> t < |keys| && |c.conns| > 0)
    ensures t < total && t >= |keys| ==> r == Err(TaskKeyMissing(t))
    ensures r.Ok? ==> Valid(r.value.batch) && r.value.batch.tasks.keys == s.tasks.keys
    ensures r.Ok? ==> r.value.batch.callback == s.callback && r.value.batch.handles == s.handles
    ensures t < total && r.Ok? ==>
      var task := s.tasks.entries[keys[t]];
      && r.value.next == t + 1
      && r.value.client == SubmitTask(c, task, pick).value
      && (IsBackgroundClass(task.jobType) ==>
            && r.value.batch.tasksCount == s.tasksCount - 1
            && r.value.batch.tasks.entries == s.tasks.entries[keys[t] := task.(finished := true)])
      && (!IsBackgroundClass(task.jobType) ==> r.value.batch == s)
  {
    if t >= total then Ok(Submitted(c, s, t))
    else if t >= |keys| then Err(TaskKeyMissing(t))
    else
      var task := s.tasks.entries[keys[t]];
      var c' :- SubmitTask(c, task, pick);
      if IsBackgroundClass(task.jobType) then
        var s' := Store(s, task.(finished := true));
        Ok(Submitted(c', s'.(tasksCount := s.tasksCount - 1), t + 1))
      else Ok(Submitted(c', s, t + 1))
  }

  /** The uniqueness keys carried by a run of packets, in order. */
  function SentKeys(sent: seq<Request>): (r: seq<string>)
    ensures |r| == |sent|
  {
    if |sent| == 0 then [] else SentKeys(sent[..|sent| - 1]) + [sent[|sent| - 1].params.uniq]
  }

  /** Whether the timeout check of a pass breaks the loop: only with a
      timeout, only once a start time is recorded, and once at least the
      timeout has elapsed. */
  predicate Expired(timeout: Option<int>, start: real, now: real) {
    timeout.Some? && start != 0.0 && now - start >= timeout.value as real
  }

  /** The state after one loop pass; `start` is the start time as recorded
      after the pass. */
  datatype Stepped = Stepped(client: Client, batch: TaskSet, next: nat, start: real, events: seq<Event>)

  /** The body of one pass that did not break: record the start time on the
      first pass with a timeout, submit the next task, and dispatch the
      responses read. */
  function PassStep(c: Client, s: TaskSet, keys: seq<string>, total: int, t: nat, start: real,
                    timeout: Option<int>, p: Pass): (r: Result<Stepped>)
    requires Valid(s) && KeysFiled(s, keys)
    ensures r.Ok? ==> Valid(r.value.batch) && r.value.batch.tasks.keys == s.tasks.keys
    ensures r.Ok? ==> r.value.batch.callback == s.callback
    ensures r.Ok? ==> forall e :: e in r.value.events ==> !e.SetCalled?
    ensures r.Ok? ==> r.value.start == (if timeout.Some? && start == 0.0 then p.now else start)
    ensures r.Ok? && t >= total ==> r.value.next == t && r.value.client.sent == c.sent
    ensures r.Ok? && t < total ==>
      && t < |keys|
      && r.value.next == t + 1
      && |r.value.client.sent| == |c.sent| + 1
      && r.value.client.sent[..|c.sent|] == c.sent
      && r.value.client.sent[|c.sent|].params.uniq == keys[t]
      && SentKeys(r.value.client.sent) == SentKeys(c.sent) + [keys[t]]
  {
    var start' := if timeout.Some? && start == 0.0 then p.now else start;
    var sub :- SubmitNext(c, s, keys, total, t, p.pick);
    var handled :- Deliver(sub.client, sub.batch, p.deliveries);
    assert t < total ==> s.tasks.entries[keys[t]].uniq == keys[t];
    assert t < total ==> sub.client.sent[..|c.sent|] == c.sent;
    Ok(Stepped(handled.client, handled.batch, sub.next, start', handled.events))
  }

  /** The `while (!$set->finished())` loop of `runSet`, one element of
      `passes` per iteration. `start` is the recorded start time, 0.0 while
      none is recorded (PHP's `empty($start)`). */
  function Loop(c: Client, s: TaskSet, keys: seq<string>, total: int, t: nat, start: real,
                timeout: Option<int>, passes: seq<Pass>): (r: Result<Run>)
    requires Valid(s) && KeysFiled(s, keys)
    ensures r.Ok? ==> Valid(r.value.batch) && r.value.batch.tasks.keys == s.tasks.keys
    ensures r.Ok? ==> r.value.batch.callback == s.callback
    ensures !Finished(s).done && |passes| > 0 && Expired(timeout, start, passes[0].now) ==>
      r == Ok(Run(c, s, t, [], TimedOut))
    ensures r.Ok? && r.value.stop == TimedOut ==> timeout.Some? && |passes| > 0 && (start == 0.0 ==> |passes| > 1)
    decreases |passes|
  {
    var verdict := Finished(s);
    if verdict.done then Ok(Run(c, s, t, verdict.events, SetFinished))
    else if |passes| == 0 then Ok(Run(c, s, t, [], InputExhausted))
    else if Expired(timeout, start, passes[0].now) then Ok(Run(c, s, t, [], TimedOut))
    else
      var step :- PassStep(c, s, keys, total, t, start, timeout, passes[0]);
      var rest :- Loop(step.client, step.batch, keys, total, step.next, step.start, timeout, passes[1..]);
      Ok(rest.(events := step.events + rest.events))
  }

  /** One iteration of a run that neither stops nor fails: the pass
      succeeded, the rest of the run continues from the state the pass
      left, and the run's events are the pass's followed by the rest's. */
  lemma LoopContinues(c: Client, s: TaskSet, keys: seq<string>, total: int, t: nat, start: real,
                      timeout: Option<int>, passes: seq<Pass>)
    requires Valid(s) && KeysFiled(s, keys)
    requires !Finished(s).done && |passes| > 0 && !Expired(timeout, start, passes[0].now)
    requires Loop(c, s, keys, total, t, start, timeout, passes).Ok?
    ensures PassStep(c, s, keys, total, t, start, timeout, passes[0]).Ok?
    ensures var step := PassStep(c, s, keys, total, t, start, timeout, passes[0]).value;
      && Loop(step.client, step.batch, keys, total, step.next, step.start, timeout, passes[1..]).Ok?
      && var rest := Loop(step.client, step.batch, keys, total, step.next, step.start, timeout, passes[1..]).value;
         Loop(c, s, keys, total, t, start, timeout, passes).value == rest.(events := step.events + rest.events)
  {
  }

  /** `runSet($set, $timeout)`: connect, then loop. No start time is
      recorded before the first pass, so a run only times out after one
      pass has gone through, and never without a timeout. */
  function RunSet(c: Client, s: TaskSet, timeout: Option<int>, reachable: set<string>, passes: seq<Pass>): (r: Result<Run>)
    requires c.servers.Valid() && Valid(s)
    ensures r.Ok? ==> Valid(r.value.batch) && r.value.batch.tasks.keys == s.tasks.keys
    ensures r.Ok? && r.value.stop == TimedOut ==> timeout.Some? && |passes| > 1
  {
    Loop(ConnectAll(c, reachable), s, s.tasks.keys, s.tasksCount, 0, 0.0, timeout, passes)
  }

  /** `createSet(...)` as written: the string workload is handed to
      Task's `array $arg` parameter, which PHP refuses for every input. */
  function CreateSetAsWritten(func: string, workload: string, unique: Option<string>, jobType: int,
                              epoch: int, generatedId: string): (r: Result<TaskSet>)
  {
    var uniq := if unique.Some? then unique.value else generatedId;
    var task :- NewTaskFrom(func, PhpString(workload), Some(uniq), Some(jobType), epoch, (f, a, t) => uniq);
    Ok(AddTask(EmptySet(), task))
  }

  /** Every `do*` call fails before anything is sent: `doNormal("echo",
      "hello")` raises a TypeError. */
  lemma CreateSetAsWrittenAlwaysFails(func: string, workload: string, unique: Option<string>,
                                      jobType: int, epoch: int, generatedId: string)
    ensures CreateSetAsWritten(func, workload, unique, jobType, epoch, generatedId) == Err(ArgumentNotArray)
    ensures CreateSetAsWritten("echo", "hello", None, JOB_NORMAL, 0, generatedId).Err?
  {
  }

  /** `createSet(...)` with the workload kept as the task's argument: a
      set of one task whose key is the given id or, without one, the
      generated `pid_uniqid` id. */
  function CreateSet(func: string, workload: string, unique: Option<string>, jobType: int,
                     epoch: int, generatedId: string): (r: Result<TaskSet>)
    ensures r.Err? <==> jobType > JOB_EPOCH
    ensures r.Ok? ==> Valid(r.value) && r.value.tasksCount == 1
    ensures r.Ok? ==> r.value.handles == map[] && r.value.callback == None
    ensures r.Ok? ==>
      var uniq := if unique.Some? then unique.value else generatedId;
      && r.value.tasks.keys == [uniq]
      && r.value.tasks.entries[uniq].func == func
      && r.value.tasks.entries[uniq].arg == workload
      && r.value.tasks.entries[uniq].jobType == jobType
      && !r.value.tasks.entries[uniq].finished
      && r.value.tasks.entries[uniq].epoch == (if jobType == JOB_EPOCH then epoch else 0)
  {
    var uniq := if unique.Some? then unique.value else generatedId;
    var task :- NewTask(func, workload, Some(uniq), Some(jobType), epoch, (f, a, t) => uniq);
    Ok(AddTask(EmptySet(), task))
  }

  /** The outcome of a one-task run and the set's first task, which
      `doNormal`/`doHigh`/`doLow` read the result of and the background
      variants return. An empty set has none (`current` gives false). */
  datatype Single = Single(run: Run, first: Option<Task>)

  /** `runSingleTaskSet($set)`. */
  function RunSingleTaskSet(c: Client, s: TaskSet, reachable: set<string>, passes: seq<Pass>): (r: Result<Single>)
    requires c.servers.Valid() && Valid(s)
    ensures r.Ok? <==> RunSet(c, s, None, reachable, passes).Ok?
    ensures r.Ok? ==> r.value.run == RunSet(c, s, None, reachable, passes).value
    ensures r.Ok? && |s.tasks.keys| == 0 ==> r.value.first == None
    ensures r.Ok? && |s.tasks.keys| > 0 ==>
      r.value.first == Some(r.value.run.batch.tasks.entries[s.tasks.keys[0]])
  {
    var run :- RunSet(c, s, None, reachable, passes);
    var keys := run.batch.tasks.keys;
    Ok(Single(run, if |keys| == 0 then None else Some(run.batch.tasks.entries[keys[0]])))
  }

  /** `doNormal`, `doHigh`, `doLow`, `doBackground`, `doHighBackground`,
      `doLowBackground` and `doEpoch`: a one-task set of the given type, run
      without a timeout. */
  function DoJob(c: Client, func: string, workload: string, unique: Option<string>, jobType: int,
                 epoch: int, generatedId: string, reachable: set<string>, passes: seq<Pass>): (r: Result<Single>)
    requires c.servers.Valid()
    ensures jobType > JOB_EPOCH ==> r == Err(UnknownJobType(jobType))
    ensures jobType <= JOB_EPOCH ==>
      var s := CreateSet(func, workload, unique, jobType, epoch, generatedId);
      s.Ok? && r == RunSingleTaskSet(c, s.value, reachable, passes)
    ensures r.Ok? ==> r.value.run.stop != TimedOut
  {
    var s :- CreateSet(func, workload, unique, jobType, epoch, generatedId);
    RunSingleTaskSet(c, s, reachable, passes)
  }

  /** The responses `job_created` carrying `handles`, in order, all read
      from `conn`. */
  function Acks(conn: Conn, handles: seq<string>): (r: seq<Delivery>)
    ensures |r| == |handles|
    ensures forall i :: 0 <= i < |r| ==> r[i] == Delivery(conn, JobCreated(handles[i]))
  {
    seq(|handles|, i requires 0 <= i < |handles| => Delivery(conn, JobCreated(handles[i])))
  }

  /** FIFO pairing: the n-th `job_created` read from a connection gives its
      handle to the n-th submission still waiting on that connection, and
      the acknowledged submissions leave the head of the queue. */
  lemma {:induction false} AcknowledgeInOrder(c: Client, s: TaskSet, conn: Conn, handles: seq<string>)
    requires Valid(s)
    requires |handles| <= |Queue(c, conn)|
    requires forall i, j :: 0 <= i < j < |handles| ==> handles[i] != handles[j]
    ensures Deliver(c, s, Acks(conn, handles)).Ok?
    ensures Queue(Deliver(c, s, Acks(conn, handles)).value.client, conn) == Queue(c, conn)[|handles|..]
    ensures forall i :: 0 <= i < |handles| ==>
      && handles[i] in Deliver(c, s, Acks(conn, handles)).value.batch.handles
      && Deliver(c, s, Acks(conn, handles)).value.batch.handles[handles[i]] == Queue(c, conn)[i]
    ensures Deliver(c, s, Acks(conn, handles)).value.batch.tasksCount == s.tasksCount
    decreases |handles|
  {
    if |handles| > 0 {
      var ds := Acks(conn, handles);
      var h := Acknowledge(c, s, conn, handles[0]).value;
      assert Queue(h.client, conn) == Queue(c, conn)[1..];
      assert ds[1..] == Acks(conn, handles[1..]);
      AcknowledgeInOrder(h.client, h.batch, conn, handles[1..]);
      var rest := Deliver(h.client, h.batch, ds[1..]).value;
      assert Deliver(c, s, ds).value.batch == rest.batch;
      assert Deliver(c, s, ds).value.client == rest.client;
      assert Queue(c, conn)[1..][|handles| - 1..] == Queue(c, conn)[|handles|..];
      forall i | 0 <= i < |handles|
        ensures handles[i] in rest.batch.handles && rest.batch.handles[handles[i]] == Queue(c, conn)[i]
      {
        if i > 0 {
          assert handles[1..][i - 1] == handles[i];
        } else {
          assert handles[0] !in handles[1..];
          HandlesKept(h.client, h.batch, conn, handles[1..], handles[0]);
        }
      }
    }
  }

  /** Acknowledging other handles leaves the entry of `x` as it was. */
  lemma {:induction false} HandlesKept(c: Client, s: TaskSet, conn: Conn, handles: seq<string>, x: string)
    requires Valid(s)
    requires x !in handles && x in s.handles
    requires Deliver(c, s, Acks(conn, handles)).Ok?
    ensures x in Deliver(c, s, Acks(conn, handles)).value.batch.handles
    ensures Deliver(c, s, Acks(conn, handles)).value.batch.handles[x] == s.handles[x]
    decreases |handles|
  {
    if |handles| > 0 {
      var ds := Acks(conn, handles);
      var h := Acknowledge(c, s, conn, handles[0]).value;
      assert ds[1..] == Acks(conn, handles[1..]);
      HandlesKept(h.client, h.batch, conn, handles[1..], x);
    }
  }

  /** The batch callback runs at most once per run and only as the run's
      last event: the loop stops at the first `finished()` that reports
      true, and no response handler runs it. A run that ends any other way
      ran it not at all, and a set still counting tasks never ends as
      finished. */
  lemma {:induction false} LoopSetCalledLast(c: Client, s: TaskSet, keys: seq<string>, total: int, t: nat,
                                             start: real, timeout: Option<int>, passes: seq<Pass>)
    requires Valid(s) && KeysFiled(s, keys)
    requires Loop(c, s, keys, total, t, start, timeout, passes).Ok?
    ensures var r := Loop(c, s, keys, total, t, start, timeout, passes).value;
      && (forall i :: 0 <= i < |r.events| - 1 ==> !r.events[i].SetCalled?)
      && (r.stop == SetFinished <==> r.batch.tasksCount == 0)
      && (r.stop != SetFinished || s.callback.None? ==> forall e :: e in r.events ==> !e.SetCalled?)
      && (r.stop == SetFinished && s.callback.Some? ==>
            |r.events| > 0 && r.events[|r.events| - 1] == SetCalled(s.callback.value, Results(r.batch)))
    decreases |passes|
  {
    if !Finished(s).done && |passes| > 0 && !Expired(timeout, start, passes[0].now) {
      LoopContinues(c, s, keys, total, t, start, timeout, passes);
      var step := PassStep(c, s, keys, total, t, start, timeout, passes[0]).value;
      LoopSetCalledLast(step.client, step.batch, keys, total, step.next, step.start, timeout, passes[1..]);
      var rest := Loop(step.client, step.batch, keys, total, step.next, step.start, timeout, passes[1..]).value;
      NoSetCalledBefore(step.events, rest.events);
    }
  }

  /** Events free of the batch callback in front of a run's events keep
      where (and whether) the callback runs. */
  lemma NoSetCalledBefore(a: seq<Event>, b: seq<Event>)
    requires forall e :: e in a ==> !e.SetCalled?
    ensures (forall i :: 0 <= i < |b| - 1 ==> !b[i].SetCalled?) ==>
      forall i :: 0 <= i < |a + b| - 1 ==> !(a + b)[i].SetCalled?
    ensures (forall e :: e in b ==> !e.SetCalled?) ==> forall e :: e in a + b ==> !e.SetCalled?
    ensures |b| > 0 ==> (a + b)[|a + b| - 1] == b[|b| - 1]
  {
    if forall i :: 0 <= i < |b| - 1 ==> !b[i].SetCalled? {
      forall i | 0 <= i < |a + b| - 1
        ensures !(a + b)[i].SetCalled?
      {
        if i < |a| {
          assert (a + b)[i] in a;
        } else {
          assert (a + b)[i] == b[i - |a|];
        }
      }
    }
  }

  /** A run submits at most one task per pass, never more than the count
      captured at its start nor past the captured keys. */
  lemma {:induction false} LoopSubmitsOnePerPass(c: Client, s: TaskSet, keys: seq<string>, total: int, t: nat,
                                                 start: real, timeout: Option<int>, passes: seq<Pass>)
    requires Valid(s) && KeysFiled(s, keys) && t <= |keys|
    requires Loop(c, s, keys, total, t, start, timeout, passes).Ok?
    ensures var r := Loop(c, s, keys, total, t, start, timeout, passes).value;
      && t <= r.submitted <= |keys|
      && r.submitted <= t + |passes|
      && (r.submitted > t ==> r.submitted <= total)
    decreases |passes|
  {
    if !Finished(s).done && |passes| > 0 && !Expired(timeout, start, passes[0].now) {
      LoopContinues(c, s, keys, total, t, start, timeout, passes);
      var step := PassStep(c, s, keys, total, t, start, timeout, passes[0]).value;
      LoopSubmitsOnePerPass(step.client, step.batch, keys, total, step.next, step.start, timeout, passes[1..]);
    }
  }

  /** A run sends nothing but its submissions, one packet each, after
      what was sent before. */
  lemma {:induction false} LoopSendsSubmissions(c: Client, s: TaskSet, keys: seq<string>, total: int, t: nat,
                                                start: real, timeout: Option<int>, passes: seq<Pass>)
    requires Valid(s) && KeysFiled(s, keys) && t <= |keys|
    requires Loop(c, s, keys, total, t, start, timeout, passes).Ok?
    ensures var r := Loop(c, s, keys, total, t, start, timeout, passes).value;
      && t <= r.submitted
      && |r.client.sent| == |c.sent| + (r.submitted - t)
      && r.client.sent[..|c.sent|] == c.sent
    decreases |passes|
  {
    LoopSubmitsOnePerPass(c, s, keys, total, t, start, timeout, passes);
    if !Finished(s).done && |passes| > 0 && !Expired(timeout, start, passes[0].now) {
      LoopContinues(c, s, keys, total, t, start, timeout, passes);
      var step := PassStep(c, s, keys, total, t, start, timeout, passes[0]).value;
      LoopSendsSubmissions(step.client, step.batch, keys, total, step.next, step.start, timeout, passes[1..]);
      var rest := Loop(step.client, step.batch, keys, total, step.next, step.start, timeout, passes[1..]).value;
      SentPrefixChain(c.sent, step.client.sent, rest.client.sent);
    }
  }

  lemma SentPrefixChain(a: seq<Request>, b: seq<Request>, c: seq<Request>)
    requires |a| <= |b| <= |c| && b[..|a|] == a && c[..|b|] == b
    ensures c[..|a|] == a
  {
    assert c[..|a|] == c[..|b|][..|a|];
  }

  /** The submissions of a run follow the order of the keys captured at
      its start: the packets it sends carry exactly the keys from position
      `t` to the final counter, in that order. */
  lemma {:induction false} LoopSubmitsInKeyOrder(c: Client, s: TaskSet, keys: seq<string>, total: int, t: nat,
                                                 start: real, timeout: Option<int>, passes: seq<Pass>)
    requires Valid(s) && KeysFiled(s, keys) && t <= |keys|
    requires Loop(c, s, keys, total, t, start, timeout, passes).Ok?
    ensures var r := Loop(c, s, keys, total, t, start, timeout, passes).value;
      t <= r.submitted <= |keys| && SentKeys(r.client.sent) == SentKeys(c.sent) + keys[t..r.submitted]
    decreases |passes|
  {
    LoopSubmitsOnePerPass(c, s, keys, total, t, start, timeout, passes);
    if !Finished(s).done && |passes| > 0 && !Expired(timeout, start, passes[0].now) {
      LoopContinues(c, s, keys, total, t, start, timeout, passes);
      var step := PassStep(c, s, keys, total, t, start, timeout, passes[0]).value;
      LoopSubmitsInKeyOrder(step.client, step.batch, keys, total, step.next, step.start, timeout, passes[1..]);
      var rest := Loop(step.client, step.batch, keys, total, step.next, step.start, timeout, passes[1..]).value;
      if t < total {
        SliceCons(SentKeys(c.sent), keys, t, rest.submitted);
      }
    }
  }

  lemma SliceCons(prefix: seq<string>, keys: seq<string>, t: nat, n: nat)
    requires t < n <= |keys|
    ensures (prefix + [keys[t]]) + keys[t + 1..n] == prefix + keys[t..n]
  {
    assert keys[t..n] == [keys[t]] + keys[t + 1..n];
  }

  /** A fire-and-forget job returns after a single pass: its task is
      marked finished on submission, so the next `finished()` check ends
      the run without a single response having been read. */
  lemma BackgroundJobReturnsAtOnce(c: Client, func: string, workload: string, unique: Option<string>,
                                   jobType: int, epoch: int, generatedId: string, reachable: set<string>,
                                   passes: seq<Pass>)
    requires c.servers.Valid()
    requires IsBackgroundClass(jobType)
    requires |c.conns| > 0 || exists k :: k in c.servers.entries && k in reachable
    requires |passes| == 1 && passes[0].deliveries == []
    ensures var r := DoJob(c, func, workload, unique, jobType, epoch, generatedId, reachable, passes);
      && r.Ok?
      && r.value.run.stop == SetFinished
      && r.value.run.events == []
      && r.value.first.Some? && r.value.first.value.finished
      && |r.value.run.client.sent| == |c.sent| + 1
      && r.value.run.client.sent[|c.sent|].command == SubmitCommand(jobType)
  {
    var s := CreateSet(func, workload, unique, jobType, epoch, generatedId).value;
    var c' := ConnectAll(c, reachable);
    ConnectAllKeepsReachable(c, reachable);
    ConnectEachOpens(c, c.servers.keys, reachable);
    assert c'.sent == c.sent;
    OneBackgroundTaskOnePass(c', s, s.tasks.keys, s.tasksCount, 0, 0.0, None, passes);
    BackgroundSubmission(c', s, passes[0]);
    assert DoJob(c, func, workload, unique, jobType, epoch, generatedId, reachable, passes)
        == RunSingleTaskSet(c, s, reachable, passes);
  }

  /** A pass after which `finished()` reports true is the last one: the
      run ends there with the pass's events followed by the verdict's. */
  lemma LoopFinishesAfterPass(c: Client, s: TaskSet, keys: seq<string>, total: int, t: nat, start: real,
                              timeout: Option<int>, passes: seq<Pass>)
    requires Valid(s) && KeysFiled(s, keys)
    requires !Finished(s).done && |passes| > 0 && !Expired(timeout, start, passes[0].now)
    requires PassStep(c, s, keys, total, t, start, timeout, passes[0]).Ok?
    requires Finished(PassStep(c, s, keys, total, t, start, timeout, passes[0]).value.batch).done
    ensures var step := PassStep(c, s, keys, total, t, start, timeout, passes[0]).value;
      Loop(c, s, keys, total, t, start, timeout, passes)
        == Ok(Run(step.client, step.batch, step.next, step.events + Finished(step.batch).events, SetFinished))
  {
    var step := PassStep(c, s, keys, total, t, start, timeout, passes[0]).value;
    assert Loop(step.client, step.batch, keys, total, step.next, step.start, timeout, passes[1..])
        == Ok(Run(step.client, step.batch, step.next, Finished(step.batch).events, SetFinished));
  }

  lemma OneBackgroundTaskOnePass(c: Client, s: TaskSet, keys: seq<string>, total: int, t: nat, start: real,
                                 timeout: Option<int>, passes: seq<Pass>)
    requires Valid(s) && |s.tasks.keys| == 1 && s.tasksCount == 1 && s.callback.None?
    requires IsBackgroundClass(s.tasks.entries[s.tasks.keys[0]].jobType)
    requires keys == s.tasks.keys && total == 1 && t == 0 && start == 0.0 && timeout.None?
    requires |c.conns| > 0 && |passes| == 1 && passes[0].deliveries == []
    ensures var r := Loop(c, s, keys, total, t, start, timeout, passes);
      && r.Ok?
      && r.value.stop == SetFinished
      && r.value.events == []
      && r.value.batch.tasks.entries[s.tasks.keys[0]].finished
      && r.value.client == PassStep(c, s, keys, total, t, start, timeout, passes[0]).value.client
  {
    BackgroundSubmission(c, s, passes[0]);
    LoopFinishesAfterPass(c, s, keys, total, t, start, timeout, passes);
  }

  /** The single pass of such a run: submitting the task finishes it. */
  lemma BackgroundSubmission(c: Client, s: TaskSet, p: Pass)
    requires Valid(s) && |s.tasks.keys| == 1 && s.tasksCount == 1 && s.callback.None?
    requires IsBackgroundClass(s.tasks.entries[s.tasks.keys[0]].jobType)
    requires |c.conns| > 0 && p.deliveries == []
    ensures var step := PassStep(c, s, s.tasks.keys, 1, 0, 0.0, None, p);
      && step.Ok?
      && step.value.next == 1 && step.value.start == 0.0 && step.value.events == []
      && step.value.batch.tasksCount == 0 && step.value.batch.callback.None?
      && step.value.batch.tasks.entries[s.tasks.keys[0]].finished
      && |step.value.client.sent| == |c.sent| + 1
      && step.value.client.sent[|c.sent|].command == SubmitCommand(s.tasks.entries[s.tasks.keys[0]].jobType)
  {
    var keys := s.tasks.keys;
    var sub := SubmitNext(c, s, keys, 1, 0, p.pick).value;
    assert Deliver(sub.client, sub.batch, []) == Ok(Handled(sub.client, sub.batch, []));
    var task := s.tasks.entries[keys[0]];
    assert sub.client == SubmitTask(c, task, p.pick).value;
    assert sub.client.sent[|c.sent|].command == SubmitCommand(task.jobType);
  }

  /** With every task submitted and no response arriving, the loop makes no
      progress: it ends only by running out of passes or by the timeout,
      with the set unchanged. */
  lemma {:induction false} NoResponsesNoProgress(c: Client, s: TaskSet, keys: seq<string>, total: int, t: nat,
                                                 start: real, timeout: Option<int>, passes: seq<Pass>)
    requires Valid(s) && KeysFiled(s, keys)
    requires t >= total && s.tasksCount != 0
    requires forall i :: 0 <= i < |passes| ==> passes[i].deliveries == []
    ensures Loop(c, s, keys, total, t, start, timeout, passes).Ok?
    ensures Loop(c, s, keys, total, t, start, timeout, passes).value.stop != SetFinished
    ensures Loop(c, s, keys, total, t, start, timeout, passes).value.batch == s
    ensures Loop(c, s, keys, total, t, start, timeout, passes).value.events == []
    decreases |passes|
  {
    if |passes| > 0 && !Expired(timeout, start, passes[0].now) {
      var step := PassStep(c, s, keys, total, t, start, timeout, passes[0]).value;
      assert step.batch == s && step.events == [] && step.next == t;
      NoResponsesNoProgress(step.client, step.batch, keys, total, step.next, step.start, timeout, passes[1..]);
    }
  }

  /** A foreground job never returns on its own: without a response to
      its submission, every run of it ends unfinished. */
  lemma ForegroundJobWaits(c: Client, func: string, workload: string, unique: Option<string>,
                           jobType: int, epoch: int, generatedId: string, reachable: set<string>, passes: seq<Pass>)
    requires c.servers.Valid()
    requires jobType <= JOB_EPOCH && !IsBackgroundClass(jobType)
    requires |c.conns| > 0 || exists k :: k in c.servers.entries && k in reachable
    requires forall i :: 0 <= i < |passes| ==> passes[i].deliveries == []
    ensures var r := DoJob(c, func, workload, unique, jobType, epoch, generatedId, reachable, passes);
      && r.Ok?
      && r.value.run.stop != SetFinished
      && r.value.first.Some? && !r.value.first.value.finished
  {
    var s := CreateSet(func, workload, unique, jobType, epoch, generatedId).value;
    ForegroundSetWaits(c, s, reachable, passes);
  }

  /** The set half of ForegroundJobWaits: a one-task foreground set whose
      passes bring no responses is still waiting when they run out. */
  lemma ForegroundSetWaits(c: Client, s: TaskSet, reachable: set<string>, passes: seq<Pass>)
    requires c.servers.Valid() && Valid(s) && s.tasksCount == 1 && |s.tasks.keys| == 1
    requires !s.tasks.entries[s.tasks.keys[0]].finished
    requires !IsBackgroundClass(s.tasks.entries[s.tasks.keys[0]].jobType)
    requires |c.conns| > 0 || exists k :: k in c.servers.entries && k in reachable
    requires forall i :: 0 <= i < |passes| ==> passes[i].deliveries == []
    ensures var r := RunSingleTaskSet(c, s, reachable, passes);
      && r.Ok?
      && r.value.run.stop != SetFinished
      && r.value.first.Some? && !r.value.first.value.finished
  {
    var c' := ConnectAll(c, reachable);
    ConnectAllKeepsReachable(c, reachable);
    if |passes| > 0 && !Expired(None, 0.0, passes[0].now) {
      var step := PassStep(c', s, s.tasks.keys, s.tasksCount, 0, 0.0, None, passes[0]).value;
      assert step.batch == s;
      NoResponsesNoProgress(step.client, step.batch, s.tasks.keys, s.tasksCount, 1, step.start, None, passes[1..]);
    }
  }
}
