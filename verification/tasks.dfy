/** A single Gearman task (src/Task.php): the function to run, its
    argument, the uniqueness key, the job type, the handle the server
    assigns, the finished/result state and three ordered lists of
    callbacks. Callbacks are user code; the model records each invocation
    as an `Event` instead of running it. */
module Tasks {
  import opened Errors

  // Job types (Task::JOB_*)
  const JOB_NORMAL: int := 1
  const JOB_BACKGROUND: int := 2
  const JOB_HIGH: int := 3
  const JOB_HIGH_BACKGROUND: int := 4
  const JOB_LOW: int := 5
  const JOB_LOW_BACKGROUND: int := 6
  const JOB_EPOCH: int := 7

  // Callback kinds (Task::TASK_*)
  const TASK_COMPLETE: int := 1
  const TASK_FAIL: int := 2
  const TASK_STATUS: int := 3

  /** The identity of a user-supplied callable. */
  type CallbackId = nat

  /** The md5/serialize derivation of a uniqueness key from the function
      name, the argument and the job type as passed (null included). */
  type UniqDerivation = (string, string, Option<int>) -> string

  datatype Task = Task(
    func: string,
    arg: string,
    uniq: string,
    jobType: int,
    handle: string,
    finished: bool,
    result: string,
    epoch: int,
    onComplete: seq<CallbackId>,
    onFail: seq<CallbackId>,
    onStatus: seq<CallbackId>)

  /** One callback invocation, with the arguments it receives. */
  datatype Event =
    | CompleteCalled(callback: CallbackId, func: string, handle: string, result: string)
    | FailCalled(callback: CallbackId, task: Task)
    | StatusCalled(callback: CallbackId, func: string, handle: string, numerator: int, denominator: int)
    | SetCalled(callback: CallbackId, results: seq<string>)

  /** A task after a transition, and the callbacks the transition ran. */
  datatype Fired = Fired(task: Task, events: seq<Event>)

  /** The job types whose submission is fire-and-forget. */
  predicate IsBackgroundClass(jobType: int) {
    jobType == JOB_BACKGROUND || jobType == JOB_HIGH_BACKGROUND ||
    jobType == JOB_LOW_BACKGROUND || jobType == JOB_EPOCH
  }

  /** `(int) $type`: a null job type becomes 0. */
  function TypeCode(jobType: Option<int>): int {
    match jobType
    case None => 0
    case Some(t) => t
  }

  /** `new Task($func, $arg, $unique_id, $type, $epoch)`. */
  function NewTask(func: string, arg: string, uniqueId: Option<string>, jobType: Option<int>,
                   epoch: int, derive: UniqDerivation): (r: Result<Task>)
    ensures r.Err? <==> TypeCode(jobType) > JOB_EPOCH
    ensures r.Err? ==> r.error == UnknownJobType(TypeCode(jobType))
    ensures r.Ok? ==> r.value.func == func && r.value.arg == arg && r.value.jobType == TypeCode(jobType)
    ensures r.Ok? && uniqueId.Some? ==> r.value.uniq == uniqueId.value
    ensures r.Ok? && uniqueId.None? ==> r.value.uniq == derive(func, arg, jobType)
    ensures r.Ok? ==> (r.value.epoch != 0 ==> r.value.jobType == JOB_EPOCH)
    ensures r.Ok? && TypeCode(jobType) == JOB_EPOCH ==> r.value.epoch == epoch
    ensures r.Ok? ==> !r.value.finished && r.value.handle == "" && r.value.result == ""
    ensures r.Ok? ==> Callbacks(r.value, TASK_COMPLETE) == [] && Callbacks(r.value, TASK_FAIL) == []
                      && Callbacks(r.value, TASK_STATUS) == []
  {
    var uniq := if uniqueId.None? then derive(func, arg, jobType) else uniqueId.value;
    var code := TypeCode(jobType);
    var storedEpoch := if code == JOB_EPOCH then epoch else 0;
    if code > 7 then Err(UnknownJobType(code))
    else Ok(Task(func, arg, uniq, code, "", false, "", storedEpoch, [], [], []))
  }

  /** The PHP value handed to the constructor's `array $arg` parameter:
      an array (whose encoding the task keeps as its argument) or a
      string. */
  datatype PhpArg = PhpArray(encoded: string) | PhpString(text: string)

  /** `new Task(...)` as PHP calls it: the parameter type is checked
      before the body runs, so a string argument is a TypeError. */
  function NewTaskFrom(func: string, arg: PhpArg, uniqueId: Option<string>, jobType: Option<int>,
                       epoch: int, derive: UniqDerivation): (r: Result<Task>)
    ensures arg.PhpString? ==> r == Err(ArgumentNotArray)
    ensures arg.PhpArray? ==> r == NewTask(func, arg.encoded, uniqueId, jobType, epoch, derive)
  {
    match arg
    case PhpString(_) => Err(ArgumentNotArray)
    case PhpArray(encoded) => NewTask(func, encoded, uniqueId, jobType, epoch, derive)
  }

  /** Creating two tasks from the same function, argument and type without
      an explicit id gives them the same uniqueness key, so the server
      coalesces them. */
  lemma DerivedUniqIsDeterministic(func: string, arg: string, jobType: Option<int>,
                                   e1: int, e2: int, derive: UniqDerivation)
    requires TypeCode(jobType) <= JOB_EPOCH
    ensures NewTask(func, arg, None, jobType, e1, derive).value.uniq
         == NewTask(func, arg, None, jobType, e2, derive).value.uniq
  {
  }

  /** The callbacks registered for one kind, in registration order (the
      entries of `getCallbacks()`); unknown kinds have none. */
  function Callbacks(t: Task, kind: int): seq<CallbackId> {
    if kind == TASK_COMPLETE then t.onComplete
    else if kind == TASK_FAIL then t.onFail
    else if kind == TASK_STATUS then t.onStatus
    else []
  }

  /** `getCallbacks()`: the table of callback lists keyed by kind. */
  function GetCallbacks(t: Task): (r: map<int, seq<CallbackId>>)
    ensures r.Keys == {TASK_COMPLETE, TASK_FAIL, TASK_STATUS}
    ensures forall kind :: kind in r ==> r[kind] == Callbacks(t, kind)
  {
    map[TASK_COMPLETE := t.onComplete, TASK_FAIL := t.onFail, TASK_STATUS := t.onStatus]
  }

  /** `attachCallback($callback, $kind)`. The kind is an integer and is
      tested exactly; PHP's loose `in_array` would also accept "1" or
      `true`, which callers using the class constants never pass. */
  function AttachCallback(t: Task, callback: CallbackId, kind: int): (r: Result<Task>)
    ensures r.Ok? <==> kind in {TASK_COMPLETE, TASK_FAIL, TASK_STATUS}
    ensures r.Err? ==> r.error == InvalidCallbackType(kind)
    ensures r.Ok? ==> Callbacks(r.value, kind) == Callbacks(t, kind) + [callback]
    ensures r.Ok? ==> forall other :: other != kind ==> Callbacks(r.value, other) == Callbacks(t, other)
    ensures r.Ok? ==> r.value.(onComplete := t.onComplete, onFail := t.onFail, onStatus := t.onStatus) == t
  {
    if kind == TASK_COMPLETE then Ok(t.(onComplete := t.onComplete + [callback]))
    else if kind == TASK_FAIL then Ok(t.(onFail := t.onFail + [callback]))
    else if kind == TASK_STATUS then Ok(t.(onStatus := t.onStatus + [callback]))
    else Err(InvalidCallbackType(kind))
  }

  /** Attaching callbacks one after another lists them in that order. */
  lemma AttachKeepsOrder(t: Task, a: CallbackId, b: CallbackId, kind: int)
    requires kind in {TASK_COMPLETE, TASK_FAIL, TASK_STATUS}
    ensures AttachCallback(AttachCallback(t, a, kind).value, b, kind).Ok?
    ensures Callbacks(AttachCallback(AttachCallback(t, a, kind).value, b, kind).value, kind)
         == Callbacks(t, kind) + [a, b]
  {
  }

  /** `complete($result)`: finishes the task with the result, then runs
      every COMPLETE callback in order with (func, handle, result). */
  function Complete(t: Task, result: string): (r: Fired)
    ensures r.task.finished && r.task.result == result
    ensures r.task.(finished := t.finished, result := t.result) == t
    ensures |r.events| == |t.onComplete|
    ensures forall i :: 0 <= i < |r.events| ==>
      r.events[i] == CompleteCalled(t.onComplete[i], t.func, t.handle, result)
  {
    var cbs := t.onComplete;
    Fired(t.(finished := true, result := result),
          seq(|cbs|, i requires 0 <= i < |cbs| => CompleteCalled(cbs[i], t.func, t.handle, result)))
  }

  /** `complete` has no once-only guard: a second call overwrites the
      result of the first and runs the callbacks again. */
  lemma CompleteOverwrites(t: Task, first: string, second: string)
    ensures Complete(Complete(t, first).task, second).task == Complete(t, second).task
    ensures Complete(Complete(t, first).task, second).events == Complete(t, second).events
  {
  }

  /** `fail()`: marks the task finished, keeps its result, then runs every
      FAIL callback in order with the (now finished) task. */
  function Fail(t: Task): (r: Fired)
    ensures r.task.finished && r.task.result == t.result
    ensures r.task.(finished := t.finished) == t
    ensures |r.events| == |t.onFail|
    ensures forall i :: 0 <= i < |r.events| ==> r.events[i] == FailCalled(t.onFail[i], r.task)
  {
    var cbs := t.onFail;
    var done := t.(finished := true);
    Fired(done, seq(|cbs|, i requires 0 <= i < |cbs| => FailCalled(cbs[i], done)))
  }

  /** `status($numerator, $denominator)`: changes nothing about the task
      and runs every STATUS callback in order. */
  function Status(t: Task, numerator: int, denominator: int): (r: Fired)
    ensures r.task == t
    ensures |r.events| == |t.onStatus|
    ensures forall i :: 0 <= i < |r.events| ==>
      r.events[i] == StatusCalled(t.onStatus[i], t.func, t.handle, numerator, denominator)
  {
    var cbs := t.onStatus;
    Fired(t, seq(|cbs|, i requires 0 <= i < |cbs| => StatusCalled(cbs[i], t.func, t.handle, numerator, denominator)))
  }

  /** Finishing is terminal in the sense that neither transition unsets
      it, and a failure after a completion keeps the completed result. */
  lemma FailAfterCompleteKeepsResult(t: Task, result: string)
    ensures Fail(Complete(t, result).task).task.finished
    ensures Fail(Complete(t, result).task).task.result == result
  {
  }
}
