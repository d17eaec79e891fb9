/** The task execution engine: a registry of the pipeline's tasks, the fixed
    execution queue used for downstream invalidation, the transient run stack
    of the current run, and the status-change handler that advances, aborts
    or finishes a run (src/Compiler/TaskManager.cpp).

    Qt signals are recorded in an append-only event log. A task's status write
    (Task::setStatus) emits `StatusWritten` and then runs the manager's
    status-change handler synchronously, exactly as the signal connection made
    in the constructor does. */
module TaskEngine {
  import Wrappers

  datatype TaskStatus = None | InProgress | Success | Fail
  datatype TaskType = Regular | Clean | Settings | Button

  /** The mutable part of a task. Its title and type never change after the
      constructor and are TITLES and Kind, indexed by task id. */
  datatype Task = Task(status: TaskStatus, valid: bool, enabled: bool)

  /** Signals emitted by tasks and by the manager. */
  datatype Event =
    | Started
    | Progress(completed: int, total: int, message: string)
    | StatusWritten(id: nat, status: TaskStatus)
    | Triggered(id: nat)
    | Done

  // Task ids, in the order the constructor registers the tasks.
  const IP_GENERATE: nat := 0
  const ANALYSIS: nat := 1
  const ANALYSIS_CLEAN: nat := 2
  const SYNTHESIS: nat := 3
  const SYNTHESIS_CLEAN: nat := 4
  const SYNTHESIS_SETTINGS: nat := 5
  const SYNTHESIS_WRITE_NETLIST: nat := 6
  const SYNTHESIS_TIMING_REPORT: nat := 7
  const PACKING: nat := 8
  const PACKING_CLEAN: nat := 9
  const GLOBAL_PLACEMENT: nat := 10
  const GLOBAL_PLACEMENT_CLEAN: nat := 11
  const PLACEMENT: nat := 12
  const PLACEMENT_CLEAN: nat := 13
  const PLACEMENT_SETTINGS: nat := 14
  const PLACEMENT_WRITE_NETLIST: nat := 15
  const PLACEMENT_TIMING_REPORT: nat := 16
  const ROUTING: nat := 17
  const ROUTING_CLEAN: nat := 18
  const ROUTING_SETTINGS: nat := 19
  const ROUTING_WRITE_NETLIST: nat := 20
  const TIMING_SIGN_OFF: nat := 21
  const TIMING_SIGN_OFF_CLEAN: nat := 22
  const POWER: nat := 23
  const POWER_CLEAN: nat := 24
  const BITSTREAM: nat := 25
  const BITSTREAM_CLEAN: nat := 26
  const PLACE_AND_ROUTE_VIEW: nat := 27
  const SIMULATE_RTL: nat := 28
  const SIMULATE_RTL_CLEAN: nat := 29
  const SIMULATE_RTL_SETTINGS: nat := 30
  const SIMULATE_GATE: nat := 31
  const SIMULATE_GATE_CLEAN: nat := 32
  const SIMULATE_GATE_SETTINGS: nat := 33
  const SIMULATE_PNR: nat := 34
  const SIMULATE_PNR_CLEAN: nat := 35
  const SIMULATE_PNR_SETTINGS: nat := 36
  const SIMULATE_BITSTREAM: nat := 37
  const SIMULATE_BITSTREAM_CLEAN: nat := 38
  const SIMULATE_BITSTREAM_SETTINGS: nat := 39

  const TASK_COUNT: nat := 40

  /** TaskManager::invalid_id, the largest unsigned 32-bit value. */
  const INVALID_ID: nat := 0xFFFF_FFFF

  const TITLES: seq<string> := [
    "IP Generate", "Analysis", "Clean", "Synthesis", "Clean", "Edit settings...",
    "Write netlist", "Timing report", "Packing", "Clean", "Global Placement", "Clean",
    "Placement", "Clean", "Edit settings...", "Write netlist", "Timing report",
    "Routing", "Clean", "Edit settings...", "Write netlist", "Timing Analysis", "Clean",
    "Power", "Clean", "Bitstream Generation", "Clean", "P&&R View",
    "Simulate RTL", "Clean", "Edit settings...", "Simulate Gate", "Clean", "Edit settings...",
    "Simulate PNR", "Clean", "Edit settings...", "Simulate Bitstream", "Clean", "Edit settings..."]

  /** The type each task is registered with: the stage tasks are Regular,
      their sub-tasks Clean or Settings, and the P&R view a Button. */
  function Kind(id: nat): TaskType
  {
    if id in {ANALYSIS_CLEAN, SYNTHESIS_CLEAN, PACKING_CLEAN, GLOBAL_PLACEMENT_CLEAN,
              PLACEMENT_CLEAN, ROUTING_CLEAN, TIMING_SIGN_OFF_CLEAN, POWER_CLEAN,
              BITSTREAM_CLEAN, SIMULATE_RTL_CLEAN, SIMULATE_GATE_CLEAN,
              SIMULATE_PNR_CLEAN, SIMULATE_BITSTREAM_CLEAN} then Clean
    else if id in {SYNTHESIS_SETTINGS, PLACEMENT_SETTINGS, ROUTING_SETTINGS,
                   SIMULATE_RTL_SETTINGS, SIMULATE_GATE_SETTINGS,
                   SIMULATE_PNR_SETTINGS, SIMULATE_BITSTREAM_SETTINGS} then Settings
    else if id == PLACE_AND_ROUTE_VIEW then Button
    else Regular
  }

  /** The declared execution queue (m_taskQueue): stages with their Clean sub-tasks. */
  const EXECUTION_QUEUE: seq<nat> := [
    IP_GENERATE, ANALYSIS, ANALYSIS_CLEAN, SYNTHESIS, SYNTHESIS_CLEAN,
    PACKING, PACKING_CLEAN, GLOBAL_PLACEMENT, GLOBAL_PLACEMENT_CLEAN,
    PLACEMENT, PLACEMENT_CLEAN, ROUTING, ROUTING_CLEAN,
    TIMING_SIGN_OFF, TIMING_SIGN_OFF_CLEAN, POWER, POWER_CLEAN,
    BITSTREAM, BITSTREAM_CLEAN]

  /** The ten top-level stages startAll appends, in order. */
  const TOP_LEVEL_STAGES: seq<nat> := [
    IP_GENERATE, ANALYSIS, SYNTHESIS, PACKING, GLOBAL_PLACEMENT,
    PLACEMENT, ROUTING, TIMING_SIGN_OFF, POWER, BITSTREAM]

  predicate StrictlyIncreasing(s: seq<nat>)
  {
    forall i, j :: 0 <= i < j < |s| ==> s[i] < s[j]
  }

  /** Every id of the queue is registered, and the queue lists each id once,
      in ascending order. */
  lemma QueueWellFormed()
    ensures forall k :: 0 <= k < |EXECUTION_QUEUE| ==> EXECUTION_QUEUE[k] <= BITSTREAM_CLEAN < TASK_COUNT
    ensures StrictlyIncreasing(EXECUTION_QUEUE)
  {
    AdjacentIncreasing(EXECUTION_QUEUE);
  }

  /** The top-level stages are registered Regular tasks, in ascending order. */
  lemma TopLevelStagesWellFormed()
    ensures forall k :: 0 <= k < |TOP_LEVEL_STAGES| ==> TOP_LEVEL_STAGES[k] < TASK_COUNT
    ensures StrictlyIncreasing(TOP_LEVEL_STAGES)
  {
    AdjacentIncreasing(TOP_LEVEL_STAGES);
  }

  /** Every top-level stage is a Regular task and is queued. */
  lemma TopLevelStagesAreQueuedStages()
    ensures forall k :: 0 <= k < |TOP_LEVEL_STAGES| ==> Kind(TOP_LEVEL_STAGES[k]) == Regular && TOP_LEVEL_STAGES[k] in EXECUTION_QUEUE
  {
  }

  lemma {:induction false} AdjacentIncreasing(s: seq<nat>)
    requires forall k :: 0 <= k < |s| - 1 ==> s[k] < s[k + 1]
    ensures StrictlyIncreasing(s)
  {
    if |s| > 1 {
      AdjacentIncreasing(s[1..]);
      forall i, j | 0 <= i < j < |s| ensures s[i] < s[j] {
        if i > 0 {
          assert s[1..][i - 1] < s[1..][j - 1];
        } else if j > 1 {
          assert s[1..][0] < s[1..][j - 1];
        }
      }
    }
  }

  /** Position of the first occurrence of `x` in `s`, or -1. */
  function IndexIn(s: seq<nat>, x: nat): (r: int)
    ensures r == -1 <==> x !in s
    ensures r != -1 ==> 0 <= r < |s| && s[r] == x && x !in s[..r]
  {
    if s == [] then -1
    else if s[0] == x then 0
    else var r := IndexIn(s[1..], x); if r == -1 then -1 else r + 1
  }

  /** The first occurrence is the one index holding x with no x before it. */
  lemma IndexInUnique(s: seq<nat>, x: nat, k: nat)
    requires k < |s| && s[k] == x && x !in s[..k]
    ensures IndexIn(s, x) == k
  {
    assert s[..k + 1][k] == x;
  }

  /** The position in queue `q` where downstream invalidation of `t` starts:
      t's own position, one earlier for a Clean task that is not at the head,
      or -1 when t is not queued. */
  function CleanStart(q: seq<nat>, t: nat): (p: int)
    ensures -1 <= p < |q|
    ensures p == -1 <==> t !in q
  {
    var k := IndexIn(q, t);
    if k == -1 then -1
    else if Kind(t) == Clean && k > 0 then k - 1
    else k
  }

  /** The ids cleanDownStreamStatus(t) resets, in queue order. */
  function Downstream(q: seq<nat>, t: nat): seq<nat>
  {
    var p := CleanStart(q, t);
    if p == -1 then [] else q[p..]
  }

  /** Downstream invalidation resets t itself and everything after it in a
      queue that lists each task once (its parent stage too, for a Clean
      task) and no entry before that point; a task outside the queue resets
      nothing. */
  lemma DownstreamShape(q: seq<nat>, t: nat)
    requires StrictlyIncreasing(q)
    ensures t !in q ==> Downstream(q, t) == []
    ensures t in q ==>
      var k := IndexIn(q, t);
      var p := if Kind(t) == Clean && k > 0 then k - 1 else k;
      Downstream(q, t) == q[p..] && t in Downstream(q, t) &&
      (forall j :: 0 <= j < p ==> q[j] !in Downstream(q, t)) &&
      (forall j :: p <= j < |q| ==> q[j] in Downstream(q, t))
  {
    if t in q {
      var k := IndexIn(q, t);
      var p := CleanStart(q, t);
      assert q[p..][k - p] == t;
      forall j | p <= j < |q| ensures q[j] in Downstream(q, t) {
        assert q[p..][j - p] == q[j];
      }
      forall j | 0 <= j < p ensures q[j] !in Downstream(q, t) {
        forall m | 0 <= m < |q[p..]| ensures q[p..][m] != q[j] {
          assert q[p..][m] == q[p + m];
        }
      }
    }
  }

  /** In the concrete queue a Clean task restarts invalidation at its parent
      stage. */
  lemma DownstreamOfClean()
    ensures EXECUTION_QUEUE[3] == SYNTHESIS && CleanStart(EXECUTION_QUEUE, SYNTHESIS_CLEAN) == 3
  {
    IndexInUnique(EXECUTION_QUEUE, SYNTHESIS_CLEAN, 4);
  }

  /** The simulation tasks and the P&R view are not queued, so running them
      invalidates nothing. */
  lemma DownstreamOfUnqueued(t: nat)
    requires t > BITSTREAM_CLEAN
    ensures Downstream(EXECUTION_QUEUE, t) == []
  {
    QueueWellFormed();
  }

  function AllIds(): seq<nat>
  {
    seq(TASK_COUNT, i => i)
  }

  /** The status write of None for each id, in order. */
  function NoneWrites(ids: seq<nat>): seq<Event>
  {
    seq(|ids|, k requires 0 <= k < |ids| => StatusWritten(ids[k], None))
  }

  /** Every task with its status set back to None. */
  function ResetAll(ts: seq<Task>): seq<Task>
  {
    seq(|ts|, i requires 0 <= i < |ts| => ts[i].(status := None))
  }

  /** The tasks listed in `ids` set to None, the others untouched. */
  function Cleaned(ts: seq<Task>, ids: seq<nat>): seq<Task>
  {
    seq(|ts|, i requires 0 <= i < |ts| => if i in ids then ts[i].(status := None) else ts[i])
  }

  lemma CleanedAppend(ts: seq<Task>, ids: seq<nat>, x: nat)
    requires x < |ts|
    ensures Cleaned(ts, ids + [x]) == Cleaned(ts, ids)[x := ts[x].(status := None)]
    ensures NoneWrites(ids + [x]) == NoneWrites(ids) + [StatusWritten(x, None)]
  {
  }

  /** A task that Task::trigger will start. */
  predicate Runnable(t: Task)
  {
    t.valid && t.enabled
  }

  /** A progress message: the task title, a space, and the state word. */
  function Report(title: string, word: string): string
  {
    title + " " + word
  }

  /** The first InProgress tick of a run reports "<title> Running". */
  function TickEvents(title: string, counter: int, total: int): seq<Event>
  {
    if counter == 0 && total != 0 then [Progress(0, total, Report(title, "Running"))] else []
  }

  /** Statuses after run(): downstream of the head reset, then the head in
      progress if it can run. */
  function AfterRun(ts: seq<Task>, q: seq<nat>, h: nat): seq<Task>
    requires h < |ts|
  {
    var c := Cleaned(ts, Downstream(q, h));
    if Runnable(ts[h]) then c[h := c[h].(status := InProgress)] else c
  }

  /** Events of run() with head h. */
  function RunEvents(ts: seq<Task>, q: seq<nat>, h: nat, title: string, counter: int, total: int): seq<Event>
    requires h < |ts|
  {
    NoneWrites(Downstream(q, h)) +
    (if Runnable(ts[h]) then [StatusWritten(h, InProgress)] + TickEvents(title, counter, total) + [Triggered(h)] else [])
  }

  /** m_runStack.removeAll(x). */
  function Without(s: seq<nat>, x: nat): (r: seq<nat>)
    ensures forall y :: y in r <==> y in s && y != x
    ensures |r| <= |s|
    ensures x !in s ==> r == s
  {
    if s == [] then []
    else if s[0] == x then Without(s[1..], x)
    else [s[0]] + Without(s[1..], x)
  }

  /** removeAll works entry by entry: removing from a concatenation removes
      from each part, so the entries kept stay in their order. */
  lemma {:induction false} WithoutAppend(a: seq<nat>, b: seq<nat>, x: nat)
    ensures Without(a + b, x) == Without(a, x) + Without(b, x)
    decreases |a|
  {
    if a != [] {
      assert (a + b)[0] == a[0];
      assert (a + b)[1..] == a[1..] + b;
      WithoutAppend(a[1..], b, x);
    } else {
      assert a + b == b;
    }
  }

  /** Removing the only task a stack holds empties it. */
  lemma {:induction false} WithoutAll(s: seq<nat>, x: nat)
    requires forall i :: 0 <= i < |s| ==> s[i] == x
    ensures Without(s, x) == []
  {
    if s != [] {
      WithoutAll(s[1..], x);
    }
  }

  /** The next head of the run stack after removing its head task: the
      first entry after it that is a different task. */
  lemma WithoutHead(s: seq<nat>, k: nat)
    requires 0 < k < |s| && s[k] != s[0]
    requires forall i :: 0 < i < k ==> s[i] == s[0]
    ensures Without(s, s[0]) != [] && Without(s, s[0])[0] == s[k]
  {
    WithoutAppend(s[..k], s[k..], s[0]);
    assert s[..k] + s[k..] == s;
    assert forall y :: y in s[..k] ==> y == s[0];
    WithoutAll(s[..k], s[0]);
    assert s[k..][0] == s[k];
  }

  /** The enabled ids of `ids`, in order (appendTask applied to each). */
  function EnabledOnly(ts: seq<Task>, ids: seq<nat>): (r: seq<nat>)
    requires forall k :: 0 <= k < |ids| ==> ids[k] < |ts|
    ensures |r| <= |ids|
    ensures forall k :: 0 <= k < |r| ==> r[k] < |ts|
  {
    if ids == [] then []
    else if ts[ids[0]].enabled then [ids[0]] + EnabledOnly(ts, ids[1..])
    else EnabledOnly(ts, ids[1..])
  }

  lemma {:induction false} EnabledOnlyAppend(ts: seq<Task>, ids: seq<nat>, x: nat)
    requires forall k :: 0 <= k < |ids| ==> ids[k] < |ts|
    requires x < |ts|
    ensures EnabledOnly(ts, ids + [x]) == EnabledOnly(ts, ids) + (if ts[x].enabled then [x] else [])
  {
    if ids != [] {
      assert (ids + [x])[1..] == ids[1..] + [x];
      EnabledOnlyAppend(ts, ids[1..], x);
    } else {
      assert EnabledOnly(ts, [x][1..]) == [];
    }
  }

  /** Resetting statuses does not change which tasks are enabled. */
  lemma {:induction false} EnabledOnlyReset(ts: seq<Task>, ids: seq<nat>)
    requires forall k :: 0 <= k < |ids| ==> ids[k] < |ts|
    ensures EnabledOnly(ResetAll(ts), ids) == EnabledOnly(ts, ids)
  {
    if ids != [] {
      EnabledOnlyReset(ts, ids[1..]);
    }
  }

  /** An id is kept exactly when it is listed and its task is enabled. */
  lemma {:induction false} EnabledOnlyMembers(ts: seq<Task>, ids: seq<nat>)
    requires forall k :: 0 <= k < |ids| ==> ids[k] < |ts|
    ensures forall y :: y in EnabledOnly(ts, ids) <==> y in ids && y < |ts| && ts[y].enabled
  {
    if ids != [] {
      EnabledOnlyMembers(ts, ids[1..]);
      assert forall y :: y in ids <==> y == ids[0] || y in ids[1..] by {
        assert ids == [ids[0]] + ids[1..];
      }
    }
  }

  lemma {:induction false} EnabledOnlyAbove(ts: seq<Task>, ids: seq<nat>, x: nat)
    requires forall k :: 0 <= k < |ids| ==> x < ids[k] < |ts|
    ensures forall k :: 0 <= k < |EnabledOnly(ts, ids)| ==> x < EnabledOnly(ts, ids)[k]
  {
    if ids != [] {
      EnabledOnlyAbove(ts, ids[1..], x);
    }
  }

  /** The kept ids stay in the order given, each once. */
  lemma {:induction false} EnabledOnlyIncreasing(ts: seq<Task>, ids: seq<nat>)
    requires forall k :: 0 <= k < |ids| ==> ids[k] < |ts|
    requires StrictlyIncreasing(ids)
    ensures StrictlyIncreasing(EnabledOnly(ts, ids))
  {
    if ids != [] {
      EnabledOnlyIncreasing(ts, ids[1..]);
      var rest := EnabledOnly(ts, ids[1..]);
      EnabledOnlyAbove(ts, ids[1..], ids[0]);
      if ts[ids[0]].enabled {
        var r := [ids[0]] + rest;
        forall i, j | 0 <= i < j < |r| ensures r[i] < r[j] {
          assert r[j] == rest[j - 1];
          if i > 0 {
            assert r[i] == rest[i - 1];
          }
        }
      }
    }
  }

  /** The startAll run stack: the enabled top-level stages, in pipeline order. */
  lemma StartAllStack(ts: seq<Task>)
    requires |ts| == TASK_COUNT
    ensures forall y :: y in EnabledOnly(ts, TOP_LEVEL_STAGES) <==> y in TOP_LEVEL_STAGES && ts[y].enabled
    ensures StrictlyIncreasing(EnabledOnly(ts, TOP_LEVEL_STAGES))
    ensures |EnabledOnly(ts, TOP_LEVEL_STAGES)| <= 10
  {
    TopLevelStagesWellFormed();
    EnabledOnlyMembers(ts, TOP_LEVEL_STAGES);
    EnabledOnlyIncreasing(ts, TOP_LEVEL_STAGES);
  }

  /** The ids below n whose task is InProgress, ascending. */
  function InProgressIds(ts: seq<Task>, n: nat): (r: seq<nat>)
    requires n <= |ts|
    ensures forall k :: 0 <= k < |r| ==> r[k] < n && ts[r[k]].status == InProgress
  {
    if n == 0 then []
    else InProgressIds(ts, n - 1) + (if ts[n - 1].status == InProgress then [n - 1] else [])
  }

  /** stopCurrentTask fails exactly the tasks that were in progress, in id
      order, each once. */
  lemma {:induction false} InProgressIdsExact(ts: seq<Task>, n: nat)
    requires n <= |ts|
    ensures forall y: nat :: y in InProgressIds(ts, n) <==> y < n && ts[y].status == InProgress
    ensures StrictlyIncreasing(InProgressIds(ts, n))
  {
    if n > 0 {
      InProgressIdsExact(ts, n - 1);
    }
  }

  /** What runNext emits for a task that failed: its status write, the
      "Failed" progress report, and done (the stack being cleared). */
  function FailOne(id: nat, title: string, completed: int, total: int): seq<Event>
  {
    [StatusWritten(id, Fail), Progress(completed, total, Report(title, "Failed")), Done]
  }

  /** What stopCurrentTask emits: for each task forced to Fail, its status
      write, a "Failed" progress report and, the stack being cleared, done. */
  function FailEvents(ids: seq<nat>, titles: seq<string>, counter: int, total: int): seq<Event>
    requires forall k :: 0 <= k < |ids| ==> ids[k] < |titles|
  {
    if ids == [] then []
    else
      FailEvents(ids[..|ids| - 1], titles, counter, total) +
      FailOne(ids[|ids| - 1], titles[ids[|ids| - 1]], counter + |ids|, total)
  }

  lemma FailEventsSnoc(ids: seq<nat>, x: nat, titles: seq<string>, counter: int, total: int)
    requires forall k :: 0 <= k < |ids| ==> ids[k] < |titles|
    requires x < |titles|
    ensures FailEvents(ids + [x], titles, counter, total) ==
      FailEvents(ids, titles, counter, total) + FailOne(x, titles[x], counter + |ids| + 1, total)
  {
    assert (ids + [x])[..|ids|] == ids;
  }

  /** A task in progress marked failed; any other task unchanged. */
  function FailIfRunning(t: Task): Task
  {
    if t.status == InProgress then t.(status := Fail) else t
  }

  /** Every InProgress task set to Fail, the others untouched. */
  function FailInProgress(ts: seq<Task>): seq<Task>
  {
    seq(|ts|, i requires 0 <= i < |ts| => FailIfRunning(ts[i]))
  }

  /** After stopCurrentTask no task is in progress, and only tasks that were
      in progress changed. */
  lemma FailInProgressStops(ts: seq<Task>)
    ensures |FailInProgress(ts)| == |ts|
    ensures forall i :: 0 <= i < |ts| ==> FailInProgress(ts)[i].status != InProgress
    ensures forall i :: 0 <= i < |ts| && ts[i].status != InProgress ==> FailInProgress(ts)[i] == ts[i]
  {
  }

  class TaskManager {
    /** The registry (m_tasks), indexed by task id. */
    const tasks: array<Task>
    /** Each task's title, indexed by task id. */
    const titles: seq<string>
    /** The declared execution queue (m_taskQueue). */
    const queue: seq<nat>
    /** The remaining work of the current run (m_runStack). */
    var runStack: seq<nat>
    /** Finished tasks reported in this run. */
    var counter: int
    /** m_taskCount: the number of tasks of this run. */
    var taskCount: int
    /** Signals emitted so far. */
    var events: seq<Event>

    ghost predicate Valid()
      reads this`runStack
    {
      tasks.Length == TASK_COUNT && |titles| == TASK_COUNT &&
      (forall k :: 0 <= k < |queue| ==> queue[k] < TASK_COUNT) &&
      (forall k :: 0 <= k < |runStack| ==> runStack[k] < TASK_COUNT)
    }

    /** Registers the forty tasks with their titles and wires the execution
        queue; every task starts with no status, no bound command, and
        enabled. */
    constructor ()
      ensures Valid() && fresh(tasks)
      ensures titles == TITLES && queue == EXECUTION_QUEUE
      ensures runStack == [] && counter == 0 && taskCount == 0 && events == []
      ensures forall i :: 0 <= i < TASK_COUNT ==> tasks[i] == Task(None, false, true)
    {
      tasks := new Task[TASK_COUNT](i => Task(None, false, true));
      titles := TITLES;
      queue := EXECUTION_QUEUE;
      runStack := [];
      counter := 0;
      taskCount := 0;
      events := [];
      new;
      QueueWellFormed();
    }

    /** task(id): the task registered under id, or nothing for an unknown id. */
    function TaskAt(id: nat): (r: Wrappers.Option<Task>)
      requires Valid()
      reads this, tasks
      ensures id < TASK_COUNT <==> r.Some?
      ensures r.Some? ==> r.value == tasks[id]
    {
      if id < tasks.Length then Wrappers.Some(tasks[id]) else Wrappers.None
    }

    /** taskId(t): the id a task reference is registered under, or
        invalid_id. In the arena a task reference is its slot. */
    function TaskId(slot: nat): (r: nat)
      requires Valid()
      reads this, tasks
      ensures TaskAt(slot).Some? ==> r == slot
      ensures TaskAt(slot).None? ==> r == INVALID_ID
      ensures r != INVALID_ID ==> TaskAt(r).Some?
    {
      if slot < tasks.Length then slot else INVALID_ID
    }

    /** status(): InProgress as soon as one task is in progress, else None. */
    method Status() returns (s: TaskStatus)
      requires Valid()
      ensures s == InProgress <==> exists i :: 0 <= i < tasks.Length && tasks[i].status == InProgress
      ensures s == InProgress || s == None
    {
      var i := 0;
      while i < tasks.Length
        invariant 0 <= i <= tasks.Length
        invariant forall j :: 0 <= j < i ==> tasks[j].status != InProgress
      {
        if tasks[i].status == InProgress {
          return InProgress;
        }
        i := i + 1;
      }
      return None;
    }

    /** bindTaskCommand(id, cmd): an unknown id is ignored; otherwise the
        task becomes valid (runnable) and nothing else changes. */
    method BindTaskCommand(id: nat)
      requires Valid()
      modifies tasks
      ensures id < TASK_COUNT ==> tasks[..] == old(tasks[..])[id := old(tasks[id]).(valid := true)]
      ensures id >= TASK_COUNT ==> tasks[..] == old(tasks[..])
    {
      if id < tasks.Length {
        tasks[id] := tasks[id].(valid := true);
      }
    }

    /** Task::setEnable for a registered task. */
    method SetEnabled(id: nat, on: bool)
      requires Valid() && id < TASK_COUNT
      modifies tasks
      ensures tasks[..] == old(tasks[..])[id := old(tasks[id]).(enabled := on)]
    {
      tasks[id] := tasks[id].(enabled := on);
    }

    /** setStatus(s) for s in {None, InProgress}: the write, its signal, and
        runNext's unfinished branch (the first InProgress tick of a run
        reports "<title> Running"). */
    method WriteStatus(id: nat, s: TaskStatus)
      requires Valid() && id < TASK_COUNT
      requires s == None || s == InProgress
      modifies tasks, this`events
      ensures tasks[..] == old(tasks[..])[id := old(tasks[id]).(status := s)]
      ensures events == old(events) + [StatusWritten(id, s)] +
        (if s == InProgress then TickEvents(titles[id], counter, taskCount) else [])
    {
      tasks[id] := tasks[id].(status := s);
      events := events + [StatusWritten(id, s)];
      if s == InProgress && counter == 0 && taskCount != 0 {
        events := events + [Progress(counter, taskCount, Report(titles[id], "Running"))];
      }
    }

    /** reset(): every task set to None, one status write per task in id order. */
    method Reset()
      requires Valid()
      modifies tasks, this`events
      ensures tasks[..] == ResetAll(old(tasks[..]))
      ensures events == old(events) + NoneWrites(AllIds())
    {
      var i := 0;
      while i < tasks.Length
        invariant 0 <= i <= tasks.Length
        invariant forall j :: 0 <= j < tasks.Length ==> tasks[j] == if j < i then old(tasks[j]).(status := None) else old(tasks[j])
        invariant events == old(events) + NoneWrites(AllIds()[..i])
      {
        WriteStatus(i, None);
        assert NoneWrites(AllIds()[..i + 1]) == NoneWrites(AllIds()[..i]) + [StatusWritten(i, None)];
        i := i + 1;
      }
      assert AllIds()[..i] == AllIds();
    }

    /** The scan of cleanDownStreamStatus for t's queue position. */
    method FindInQueue(t: nat) returns (k: int)
      ensures k == IndexIn(queue, t)
    {
      k := 0;
      while k < |queue| && queue[k] != t
        invariant 0 <= k <= |queue|
        invariant t !in queue[..k]
      {
        k := k + 1;
      }
      if k == |queue| {
        assert queue[..k] == queue;
        k := -1;
      } else {
        IndexInUnique(queue, t, k);
      }
    }

    /** The inner loop of cleanDownStreamStatus: each listed task set to
        None, in order. */
    method CleanAll(ids: seq<nat>)
      requires Valid()
      requires forall k :: 0 <= k < |ids| ==> ids[k] < TASK_COUNT
      modifies tasks, this`events
      ensures tasks[..] == Cleaned(old(tasks[..]), ids)
      ensures events == old(events) + NoneWrites(ids)
    {
      var j := 0;
      while j < |ids|
        invariant 0 <= j <= |ids|
        invariant tasks[..] == Cleaned(old(tasks[..]), ids[..j])
        invariant events == old(events) + NoneWrites(ids[..j])
      {
        assert ids[..j + 1] == ids[..j] + [ids[j]];
        CleanedAppend(old(tasks[..]), ids[..j], ids[j]);
        WriteStatus(ids[j], None);
        j := j + 1;
      }
      assert ids[..j] == ids;
    }

    /** cleanDownStreamStatus(t): every queue entry from t's position (from
        its parent's, for a Clean task) to the end is set to None; nothing
        changes when t is not queued. */
    method CleanDownStreamStatus(t: nat)
      requires Valid()
      modifies tasks, this`events
      ensures tasks[..] == Cleaned(old(tasks[..]), Downstream(queue, t))
      ensures events == old(events) + NoneWrites(Downstream(queue, t))
    {
      var k := FindInQueue(t);
      if k == -1 {
        assert Cleaned(old(tasks[..]), []) == old(tasks[..]);
        return;
      }
      if Kind(t) == Clean && k != 0 {
        k := k - 1;
      }
      assert CleanStart(queue, t) == k;
      assert forall i :: 0 <= i < |queue[k..]| ==> queue[k..][i] == queue[k + i];
      CleanAll(queue[k..]);
    }

    /** Task::trigger: a valid, enabled task goes InProgress and its bound
        command is invoked; any other task is left alone. */
    method Trigger(id: nat)
      requires Valid() && id < TASK_COUNT
      modifies tasks, this`events
      ensures Runnable(old(tasks[id])) ==> tasks[..] == old(tasks[..])[id := old(tasks[id]).(status := InProgress)]
      ensures !Runnable(old(tasks[id])) ==> tasks[..] == old(tasks[..])
      ensures events == old(events) +
        (if Runnable(old(tasks[id])) then [StatusWritten(id, InProgress)] + TickEvents(titles[id], counter, taskCount) + [Triggered(id)] else [])
    {
      if tasks[id].valid && tasks[id].enabled {
        WriteStatus(id, InProgress);
        events := events + [Triggered(id)];
      }
    }

    /** run(): downstream of the head invalidated, then the head triggered. */
    method Run()
      requires Valid()
      modifies tasks, this`events
      ensures runStack == [] ==> tasks[..] == old(tasks[..]) && events == old(events)
      ensures runStack != [] ==>
        tasks[..] == AfterRun(old(tasks[..]), queue, runStack[0]) &&
        events == old(events) + RunEvents(old(tasks[..]), queue, runStack[0], titles[runStack[0]], counter, taskCount)
    {
      if runStack != [] {
        var head := runStack[0];
        ghost var e0 := events;
        CleanDownStreamStatus(head);
        ghost var e1 := events;
        Trigger(head);
        AppendAssoc(e0, e1[|e0|..], events[|e1|..]);
      }
    }

    /** appendTask(t): t joins the run stack only when enabled. */
    method AppendTask(id: nat)
      requires Valid() && id < TASK_COUNT
      modifies this`runStack
      ensures Valid()
      ensures runStack == old(runStack) + (if tasks[id].enabled then [id] else [])
    {
      if tasks[id].enabled {
        runStack := runStack + [id];
      }
    }

    /** runNext for a task that reports Fail: counted and reported as
        "Failed", the whole run stack is dropped, and done is emitted. */
    method FailTask(id: nat)
      requires Valid() && id < TASK_COUNT
      modifies this, tasks
      ensures Valid()
      ensures taskCount == old(taskCount)
      ensures runStack == [] && counter == old(counter) + 1
      ensures tasks[..] == old(tasks[..])[id := old(tasks[id]).(status := Fail)]
      ensures events == old(events) + FailOne(id, titles[id], counter, taskCount)
    {
      tasks[id] := tasks[id].(status := Fail);
      counter := counter + 1;
      events := events + [StatusWritten(id, Fail), Progress(counter, taskCount, Report(titles[id], "Failed"))];
      runStack := [];
      events := events + [Done];
    }

    /** runNext for a task that reports Success: counted and reported as
        "Complete", every occurrence of it leaves the run stack, and the next
        head runs; done is emitted once the stack is empty. */
    method CompleteTask(id: nat)
      requires Valid() && id < TASK_COUNT
      modifies this, tasks
      ensures Valid()
      ensures taskCount == old(taskCount)
      ensures runStack == Without(old(runStack), id) && counter == old(counter) + 1
      ensures id !in runStack && |runStack| <= |old(runStack)|
      ensures
        var ts := old(tasks[..])[id := old(tasks[id]).(status := Success)];
        var before := old(events) + [StatusWritten(id, Success), Progress(counter, taskCount, Report(titles[id], "Complete"))];
        (runStack == [] ==> tasks[..] == ts && events == before + [Done]) &&
        (runStack != [] ==> tasks[..] == AfterRun(ts, queue, runStack[0]) &&
                            events == before + RunEvents(ts, queue, runStack[0], titles[runStack[0]], counter, taskCount))
    {
      tasks[id] := tasks[id].(status := Success);
      counter := counter + 1;
      events := events + [StatusWritten(id, Success), Progress(counter, taskCount, Report(titles[id], "Complete"))];
      runStack := Without(runStack, id);
      assert forall k :: 0 <= k < |runStack| ==> runStack[k] in old(runStack);
      if runStack != [] {
        Run();
      } else {
        events := events + [Done];
      }
    }

    /** setStatus(s) on a registered task, as its bound command does when it
        finishes: the write is followed by the manager's runNext. */
    method SetStatus(id: nat, s: TaskStatus)
      requires Valid() && id < TASK_COUNT
      modifies this, tasks
      ensures Valid()
      ensures taskCount == old(taskCount)
      ensures (s == None || s == InProgress) ==> runStack == old(runStack) && counter == old(counter)
      ensures s == Fail ==> runStack == [] && counter == old(counter) + 1
      ensures s == Success ==> runStack == Without(old(runStack), id) && counter == old(counter) + 1
      ensures s != Success ==> tasks[id].status == s
    {
      if s == None || s == InProgress {
        WriteStatus(id, s);
      } else if s == Fail {
        FailTask(id);
      } else {
        CompleteTask(id);
      }
    }

    /** The state of stopCurrentTask after its first i tasks, starting from
        tasks ts, counter c0, events e0, run stack rs0 and task count tc:
        those tasks that were in progress (`stopped`) have failed through
        runNext's abort path, the rest are untouched. */
    ghost predicate StoppedUpTo(ts: seq<Task>, i: nat, stopped: seq<nat>, c0: int, e0: seq<Event>, rs0: seq<nat>, tc: int)
      reads this, tasks
    {
      Valid() && i <= |ts| == tasks.Length && taskCount == tc &&
      (forall j :: 0 <= j < i ==> tasks[j] == FailIfRunning(ts[j])) &&
      (forall j :: i <= j < tasks.Length ==> tasks[j] == ts[j]) &&
      stopped == InProgressIds(ts, i) &&
      counter == c0 + |stopped| &&
      runStack == (if stopped == [] then rs0 else []) &&
      events == e0 + FailEvents(stopped, titles, c0, tc)
    }

    /** One iteration of stopCurrentTask: task i, if in progress, is failed. */
    method StopIfInProgress(ghost ts: seq<Task>, i: nat, ghost stopped: seq<nat>,
                            ghost c0: int, ghost e0: seq<Event>, ghost rs0: seq<nat>, ghost tc: int)
      returns (ghost stopped': seq<nat>)
      requires i < |ts| && StoppedUpTo(ts, i, stopped, c0, e0, rs0, tc)
      modifies this, tasks
      ensures StoppedUpTo(ts, i + 1, stopped', c0, e0, rs0, tc)
    {
      stopped' := stopped;
      if tasks[i].status == InProgress {
        FailEventsSnoc(stopped, i, titles, c0, tc);
        AppendAssoc(e0, FailEvents(stopped, titles, c0, tc), FailOne(i, titles[i], counter + 1, tc));
        FailTask(i);
        stopped' := stopped + [i];
      }
    }

    /** stopCurrentTask(): every InProgress task is forced to Fail, each such
        write running runNext's abort path; other statuses are unchanged. */
    method StopCurrentTask()
      requires Valid()
      modifies this, tasks
      ensures Valid()
      ensures tasks[..] == FailInProgress(old(tasks[..]))
      ensures taskCount == old(taskCount)
      ensures var stopped := InProgressIds(old(tasks[..]), TASK_COUNT);
        counter == old(counter) + |stopped| &&
        runStack == (if stopped == [] then old(runStack) else []) &&
        events == old(events) + FailEvents(stopped, titles, old(counter), taskCount)
    {
      ghost var ts := tasks[..];
      ghost var stopped: seq<nat> := [];
      var i := 0;
      while i < tasks.Length
        invariant 0 <= i <= tasks.Length
        invariant StoppedUpTo(ts, i, stopped, old(counter), old(events), old(runStack), old(taskCount))
      {
        stopped := StopIfInProgress(ts, i, stopped, old(counter), old(events), old(runStack), old(taskCount));
        i := i + 1;
      }
      assert tasks[..] == FailInProgress(ts);
    }

    /** The ten appendTask calls of startAll, in pipeline order. */
    method AppendTopLevelStages()
      requires Valid()
      modifies this`runStack
      ensures Valid()
      ensures runStack == old(runStack) + EnabledOnly(tasks[..], TOP_LEVEL_STAGES)
    {
      TopLevelStagesWellFormed();
      var k := 0;
      while k < |TOP_LEVEL_STAGES|
        invariant 0 <= k <= |TOP_LEVEL_STAGES|
        invariant Valid()
        invariant runStack == old(runStack) + EnabledOnly(tasks[..], TOP_LEVEL_STAGES[..k])
      {
        assert TOP_LEVEL_STAGES[..k + 1] == TOP_LEVEL_STAGES[..k] + [TOP_LEVEL_STAGES[k]];
        EnabledOnlyAppend(tasks[..], TOP_LEVEL_STAGES[..k], TOP_LEVEL_STAGES[k]);
        AppendTask(TOP_LEVEL_STAGES[k]);
        AppendAssoc(old(runStack), EnabledOnly(tasks[..], TOP_LEVEL_STAGES[..k]), runStack[|old(runStack)| + |EnabledOnly(tasks[..], TOP_LEVEL_STAGES[..k])|..]);
        k := k + 1;
      }
      assert TOP_LEVEL_STAGES[..k] == TOP_LEVEL_STAGES;
    }

    /** The common tail of startAll and startTask: the run's task count is
        the stack size, the counter restarts, `started` is emitted and the
        head runs. */
    method Launch()
      requires Valid()
      modifies tasks, this`taskCount, this`counter, this`events
      ensures taskCount == |runStack| && counter == 0
      ensures runStack == [] ==> tasks[..] == old(tasks[..]) && events == old(events) + [Started]
      ensures runStack != [] ==>
        tasks[..] == AfterRun(old(tasks[..]), queue, runStack[0]) &&
        events == old(events) + [Started] + RunEvents(old(tasks[..]), queue, runStack[0], titles[runStack[0]], 0, taskCount)
    {
      taskCount := |runStack|;
      counter := 0;
      events := events + [Started];
      Run();
    }

    /** startAll(): refused while a run is active. Otherwise every task is
        reset, the enabled top-level stages form the run stack in pipeline
        order, the counters restart, `started` is emitted and the head runs. */
    method StartAll()
      requires Valid()
      modifies this, tasks
      ensures Valid()
      ensures old(runStack) != [] ==>
        runStack == old(runStack) && counter == old(counter) && taskCount == old(taskCount) &&
        tasks[..] == old(tasks[..]) && events == old(events)
      ensures old(runStack) == [] ==>
        var reset := ResetAll(old(tasks[..]));
        var before := old(events) + NoneWrites(AllIds()) + [Started];
        runStack == EnabledOnly(old(tasks[..]), TOP_LEVEL_STAGES) &&
        taskCount == |runStack| && counter == 0 &&
        (runStack == [] ==> tasks[..] == reset && events == before) &&
        (runStack != [] ==> tasks[..] == AfterRun(reset, queue, runStack[0]) &&
                            events == before + RunEvents(reset, queue, runStack[0], titles[runStack[0]], 0, taskCount))
    {
      if runStack != [] {
        return;
      }
      ghost var ts := tasks[..];
      Reset();
      TopLevelStagesWellFormed();
      EnabledOnlyReset(ts, TOP_LEVEL_STAGES);
      AppendTopLevelStages();
      Launch();
    }

    /** startTask(id): an unknown id is ignored; refused while a run is
        active or when the task is not valid or not enabled. Otherwise the
        task alone forms the run, `started` is emitted and it runs. */
    method StartTask(id: nat)
      requires Valid()
      modifies this, tasks
      ensures Valid()
      ensures old(runStack) != [] || id >= TASK_COUNT || !Runnable(old(tasks[id])) ==>
        runStack == old(runStack) && counter == old(counter) && taskCount == old(taskCount) &&
        tasks[..] == old(tasks[..]) && events == old(events)
      ensures old(runStack) == [] && id < TASK_COUNT && Runnable(old(tasks[id])) ==>
        runStack == [id] && taskCount == 1 && counter == 0 &&
        tasks[..] == AfterRun(old(tasks[..]), queue, id) &&
        events == old(events) + [Started] + RunEvents(old(tasks[..]), queue, id, titles[id], 0, 1)
    {
      if runStack != [] || id >= tasks.Length {
        return;
      }
      if !tasks[id].valid || !tasks[id].enabled {
        return;
      }
      AppendTask(id);
      Launch();
    }
  }

  lemma AppendAssoc<T>(a: seq<T>, b: seq<T>, c: seq<T>)
    ensures a + b + c == a + (b + c)
  {
  }
}
