/** A batch of tasks run together (src/Set.php): tasks keyed by
    uniqueness key in insertion order, the count of tasks still expected
    to finish, the handle-to-key map filled in as the server acknowledges
    submissions, and one optional batch callback. */
module TaskSets {
  import opened Errors
  import opened OrderedMaps
  import opened Tasks

  datatype TaskSet = TaskSet(
    tasks: OMap<string, Task>,
    tasksCount: int,
    handles: map<string, string>,
    callback: Option<CallbackId>)

  /** What `finished()` answers, and the batch callback it ran, if any. */
  datatype Verdict = Verdict(done: bool, events: seq<Event>)

  /** The tasks map is a well-formed ordered map whose every task is filed
      under its own uniqueness key. */
  ghost predicate Valid(s: TaskSet) {
    s.tasks.Valid() && forall k :: k in s.tasks.entries ==> s.tasks.entries[k].uniq == k
  }

  function EmptySet(): (s: TaskSet)
    ensures Valid(s) && s.tasks.keys == [] && s.tasksCount == 0
  {
    TaskSet(Empty(), 0, map[], None)
  }

  /** `addTask($task)`: a task whose key is already present changes
      nothing; otherwise it is appended and the count goes up by one. */
  function AddTask(s: TaskSet, t: Task): (r: TaskSet)
    requires Valid(s)
    ensures Valid(r)
    ensures t.uniq in s.tasks.entries ==> r == s
    ensures t.uniq !in s.tasks.entries ==>
      && r.tasks.keys == s.tasks.keys + [t.uniq]
      && r.tasks.entries == s.tasks.entries[t.uniq := t]
      && r.tasksCount == s.tasksCount + 1
      && r.handles == s.handles && r.callback == s.callback
  {
    if t.uniq in s.tasks.entries then s
    else s.(tasks := s.tasks.Put(t.uniq, t), tasksCount := s.tasksCount + 1)
  }

  /** `new Set($tasks)`: adds the tasks one by one. */
  function NewSet(ts: seq<Task>): (s: TaskSet)
    ensures Valid(s)
  {
    if |ts| == 0 then EmptySet() else AddTask(NewSet(ts[..|ts| - 1]), ts[|ts| - 1])
  }

  /** The keys of `us` in order of first occurrence, each once. */
  function FirstOccurrences(us: seq<string>): (r: seq<string>)
    ensures forall x :: x in r <==> x in us
  {
    if |us| == 0 then []
    else
      var d := FirstOccurrences(us[..|us| - 1]);
      var last := us[|us| - 1];
      assert forall x :: x in us <==> x in us[..|us| - 1] || x == last by {
        assert us == us[..|us| - 1] + [last];
      }
      if last in d then d else d + [last]
  }

  function Uniqs(ts: seq<Task>): (r: seq<string>)
    ensures |r| == |ts| && forall i :: 0 <= i < |ts| ==> r[i] == ts[i].uniq
  {
    seq(|ts|, i requires 0 <= i < |ts| => ts[i].uniq)
  }

  /** A set built from a list keeps one task per uniqueness key, listed in
      order of first appearance, and the task kept is the first one with
      that key; its count is the number of distinct keys. */
  lemma NewSetKeepsFirstInsertion(ts: seq<Task>)
    ensures NewSet(ts).tasks.keys == FirstOccurrences(Uniqs(ts))
    ensures NewSet(ts).tasksCount == |NewSet(ts).tasks.keys|
    ensures forall i :: 0 <= i < |ts| && (forall j :: 0 <= j < i ==> ts[j].uniq != ts[i].uniq) ==>
      NewSet(ts).tasks.entries[ts[i].uniq] == ts[i]
    ensures NewSet(ts).handles == map[] && NewSet(ts).callback == None
  {
    NewSetKeys(ts);
    forall i | 0 <= i < |ts| && (forall j :: 0 <= j < i ==> ts[j].uniq != ts[i].uniq)
      ensures NewSet(ts).tasks.entries[ts[i].uniq] == ts[i]
    {
      NewSetFirstTask(ts, i);
    }
  }

  /** The keys, count, handles and callback of a freshly built set. */
  lemma {:induction false} NewSetKeys(ts: seq<Task>)
    ensures NewSet(ts).tasks.keys == FirstOccurrences(Uniqs(ts))
    ensures NewSet(ts).tasksCount == |NewSet(ts).tasks.keys|
    ensures NewSet(ts).handles == map[] && NewSet(ts).callback == None
  {
    if |ts| > 0 {
      var init := ts[..|ts| - 1];
      NewSetKeys(init);
      assert Uniqs(ts)[..|ts| - 1] == Uniqs(init);
    }
  }

  /** The task filed under a key is the first one listed with that key. */
  lemma {:induction false} NewSetFirstTask(ts: seq<Task>, i: int)
    requires 0 <= i < |ts| && forall j :: 0 <= j < i ==> ts[j].uniq != ts[i].uniq
    ensures ts[i].uniq in NewSet(ts).tasks.entries && NewSet(ts).tasks.entries[ts[i].uniq] == ts[i]
  {
    var init := ts[..|ts| - 1];
    var last := ts[|ts| - 1];
    assert NewSet(ts) == AddTask(NewSet(init), last);
    if i < |ts| - 1 {
      assert ts[i] == init[i];
      assert forall j :: 0 <= j < i ==> init[j].uniq != init[i].uniq;
      NewSetFirstTask(init, i);
    } else {
      NewSetKeys(init);
      assert Uniqs(ts)[..|ts| - 1] == Uniqs(init);
      assert last.uniq !in Uniqs(init);
      assert last.uniq !in NewSet(init).tasks.entries;
    }
  }

  /** The number of distinct keys among a list of strings. */
  lemma FirstOccurrencesDistinct(us: seq<string>)
    ensures forall i, j :: 0 <= i < j < |FirstOccurrences(us)| ==>
      FirstOccurrences(us)[i] != FirstOccurrences(us)[j]
    ensures |FirstOccurrences(us)| == |set x | x in us|
  {
    FirstOccurrencesUnique(us);
    FirstOccurrencesCount(us);
  }

  lemma {:induction false} FirstOccurrencesUnique(us: seq<string>)
    ensures forall i, j :: 0 <= i < j < |FirstOccurrences(us)| ==>
      FirstOccurrences(us)[i] != FirstOccurrences(us)[j]
  {
    if |us| > 0 {
      FirstOccurrencesUnique(us[..|us| - 1]);
    }
  }

  lemma {:induction false} FirstOccurrencesCount(us: seq<string>)
    ensures |FirstOccurrences(us)| == |set x | x in us|
  {
    if |us| > 0 {
      var init := us[..|us| - 1];
      var last := us[|us| - 1];
      FirstOccurrencesCount(init);
      assert us == init + [last];
      var before := set x | x in init;
      assert (set x | x in us) == before + {last};
      if last !in FirstOccurrences(init) {
        assert last !in before;
      } else {
        assert last in before;
      }
    }
  }

  /** `count()` after construction is the number of distinct uniqueness
      keys among the given tasks. */
  lemma CountOfNewSet(ts: seq<Task>)
    ensures Count(NewSet(ts)) == |set t | t in ts :: t.uniq|
  {
    NewSetKeepsFirstInsertion(ts);
    var us := Uniqs(ts);
    FirstOccurrencesDistinct(us);
    var keys := set t | t in ts :: t.uniq;
    var distinct := set x | x in us;
    forall x | x in distinct
      ensures x in keys
    {
      UniqsHave(ts, x);
    }
    forall x | x in keys
      ensures x in distinct
    {
      var t :| t in ts && t.uniq == x;
      UniqsHave(ts, x);
    }
    assert keys == distinct;
  }

  /** A key is among the keys of a list exactly when a task has it. */
  lemma UniqsHave(ts: seq<Task>, x: string)
    ensures x in Uniqs(ts) <==> exists t :: t in ts && t.uniq == x
  {
    var us := Uniqs(ts);
    if x in us {
      var i :| 0 <= i < |us| && us[i] == x;
      assert ts[i] in ts;
    }
    if exists t :: t in ts && t.uniq == x {
      var t :| t in ts && t.uniq == x;
      var i :| 0 <= i < |ts| && ts[i] == t;
      assert us[i] == x;
    }
  }

  /** `getTask($handle)`. */
  function GetTask(s: TaskSet, handle: string): (r: Result<Task>)
    ensures handle !in s.handles ==> r == Err(UnknownHandle(handle))
    ensures handle in s.handles && s.handles[handle] !in s.tasks.entries ==> r == Err(NoTaskByHandle(handle))
    ensures r.Ok? <==> handle in s.handles && s.handles[handle] in s.tasks.entries
    ensures r.Ok? ==> r.value == s.tasks.entries[s.handles[handle]]
  {
    if handle !in s.handles then Err(UnknownHandle(handle))
    else if s.handles[handle] !in s.tasks.entries then Err(NoTaskByHandle(handle))
    else Ok(s.tasks.entries[s.handles[handle]])
  }

  /** In a well-formed set, the task found for a handle is the one whose
      key the handle was recorded against. */
  lemma GetTaskMatchesHandle(s: TaskSet, handle: string)
    requires Valid(s) && GetTask(s, handle).Ok?
    ensures GetTask(s, handle).value.uniq == s.handles[handle]
  {
  }

  /** Every task's result, in set order. */
  function Results(s: TaskSet): (r: seq<string>)
    requires s.tasks.Valid()
    ensures |r| == |s.tasks.keys|
    ensures forall i :: 0 <= i < |r| ==> r[i] == s.tasks.entries[s.tasks.keys[i]].result
  {
    var keys := s.tasks.keys;
    seq(|keys|, i requires 0 <= i < |keys| => s.tasks.entries[keys[i]].result)
  }

  /** `finished()`: false while the count is nonzero, without running the
      callback; otherwise true, running the batch callback (when attached)
      with every result in set order. There is no once-only guard. */
  function Finished(s: TaskSet): (r: Verdict)
    requires s.tasks.Valid()
    ensures r.done <==> s.tasksCount == 0
    ensures !r.done ==> r.events == []
    ensures r.done && s.callback.None? ==> r.events == []
    ensures r.done && s.callback.Some? ==> r.events == [SetCalled(s.callback.value, Results(s))]
  {
    if s.tasksCount != 0 then Verdict(false, [])
    else if s.callback.Some? then Verdict(true, [SetCalled(s.callback.value, Results(s))])
    else Verdict(true, [])
  }

  /** `attachCallback($callback)`: one slot, replaced on every call. */
  function AttachCallback(s: TaskSet, callback: CallbackId): (r: TaskSet)
    ensures r.callback == Some(callback)
    ensures r.(callback := s.callback) == s
  {
    s.(callback := Some(callback))
  }

  /** Attaching twice keeps only the second callback. */
  lemma AttachReplaces(s: TaskSet, a: CallbackId, b: CallbackId)
    ensures AttachCallback(AttachCallback(s, a), b) == AttachCallback(s, b)
  {
  }

  /** `count()`. */
  function Count(s: TaskSet): int {
    s.tasksCount
  }
}
