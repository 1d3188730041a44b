/**
 The coordinator of a MapReduce job (src/mr/coordinator.go): its handlers as functions on
 a value, as the object whose fields they update, and what every run of calls keeps.
 */
module MrCoordinator {
  // ---------------------------------------------------------------- the state

  /** The phases; Wait is only ever an answer. */
  datatype Phase = Map | Reduce | Exit

  datatype State = Idle | InProgress | Done

  datatype TaskInfo = TaskInfo(state: State, worker: int, start: int)

  datatype Coordinator = Coordinator(numMap: nat, numReduce: nat, phase: Phase, tasks: seq<TaskInfo>, nextWorker: nat)

  datatype Answer = Task(phase: Phase, id: nat, slices: nat) | Wait | AllDone

  /** Ten seconds, in nanoseconds. */
  const TIMEOUT := 10_000_000_000

  function FreshTasks(n: nat): seq<TaskInfo> {
    seq(n, _ => TaskInfo(Idle, 0, 0))
  }

  function NewCoordinator(numMap: nat, numReduce: nat): Coordinator {
    Coordinator(numMap, numReduce, Map, FreshTasks(numMap), 0)
  }

  // ---------------------------------------------------------------- the handlers

  /** What the clock shows during one call: when task i is looked at, and when a task is handed out. */
  datatype Clock = Clock(readings: seq<int>, start: int) {
    function At(i: nat): int {
      if i < |readings| then readings[i] else start
    }
  }

  /** A task that may be handed out: never started, or started too long ago. */
  predicate Available(t: TaskInfo, now: int) {
    t.state == Idle || (t.state == InProgress && now - t.start > TIMEOUT)
  }

  /** The first available task from index i on, or the number of tasks. */
  function FirstAvailable(tasks: seq<TaskInfo>, clock: Clock, i: nat): (k: nat)
    requires i <= |tasks|
    ensures i <= k <= |tasks|
    ensures k < |tasks| ==> Available(tasks[k], clock.At(k))
    ensures forall j | i <= j < k :: !Available(tasks[j], clock.At(j))
    decreases |tasks| - i
  {
    if i == |tasks| || Available(tasks[i], clock.At(i)) then i else FirstAvailable(tasks, clock, i + 1)
  }

  function DoRegister(c: Coordinator): (Coordinator, int) {
    if c.phase == Exit then (c, -1) else (c.(nextWorker := c.nextWorker + 1), c.nextWorker as int)
  }

  function DoGetTask(c: Coordinator, worker: int, clock: Clock): (Coordinator, Answer) {
    if c.phase == Exit then (c, AllDone)
    else
      var k := FirstAvailable(c.tasks, clock, 0);
      if k == |c.tasks| then (c, Wait)
      else (c.(tasks := c.tasks[k := TaskInfo(InProgress, worker, clock.start)]),
            Task(c.phase, k, if c.phase == Map then c.numReduce else c.numMap))
  }

  predicate AllDoneIn(tasks: seq<TaskInfo>) {
    forall i | 0 <= i < |tasks| :: tasks[i].state == Done
  }

  /** A report changes the state when it is for the running phase and its task is not done yet. */
  predicate Effective(c: Coordinator, phase: Phase, id: nat)
    requires phase == c.phase ==> id < |c.tasks|
  {
    phase == c.phase && c.tasks[id].state != Done
  }

  /** The phase after the last task of a phase is done. */
  function Advance(c: Coordinator): Coordinator {
    if !AllDoneIn(c.tasks) then c
    else
      match c.phase
      case Map => c.(phase := Reduce, tasks := FreshTasks(c.numReduce))
      case Reduce => c.(phase := Exit)
      case Exit => c
  }

  function DoReport(c: Coordinator, phase: Phase, id: nat, worker: int): Coordinator
    requires phase == c.phase ==> id < |c.tasks|
  {
    if Effective(c, phase, id)
    then Advance(c.(tasks := c.tasks[id := c.tasks[id].(state := Done, worker := worker)]))
    else c
  }

  // ---------------------------------------------------------------- the object

  class Service {
    var files: seq<string>
    var numMap: nat
    var numReduce: nat
    var phase: Phase
    var tasks: seq<TaskInfo>
    var nextWorker: int

    ghost predicate Valid()
      reads this
    {
      numMap == |files| && nextWorker >= 0 && WellFormed(Value())
    }

    ghost function Value(): Coordinator
      reads this
    {
      Coordinator(numMap, numReduce, phase, tasks, if nextWorker >= 0 then nextWorker else 0)
    }

    constructor (names: seq<string>, nReduce: nat)
      ensures Valid() && files == names && Value() == NewCoordinator(|names|, nReduce)
    {
      files := names;
      numMap := |names|;
      numReduce := nReduce;
      phase := Map;
      tasks := FreshTasks(|names|);
      nextWorker := 0;
    }

    method Register() returns (id: int)
      requires Valid()
      modifies this`nextWorker
      ensures Valid() && (Value(), id) == DoRegister(old(Value()))
    {
      if phase == Exit {
        return -1;
      }
      if nextWorker < 0 {
        return -1;
      }
      id := nextWorker;
      nextWorker := nextWorker + 1;
    }

    method GetTask(worker: int, clock: Clock) returns (answer: Answer, name: string)
      requires Valid()
      modifies this`tasks
      ensures Valid() && (Value(), answer) == DoGetTask(old(Value()), worker, clock)
      ensures answer.Task? && answer.phase == Map ==> answer.id < |files| && name == files[answer.id]
    {
      name := "";
      match phase {
        case Map =>
          for index := 0 to |files|
            invariant tasks == old(tasks)
            invariant FirstAvailable(tasks, clock, 0) == FirstAvailable(tasks, clock, index)
          {
            var task := tasks[index];
            if task.state == Idle || (task.state == InProgress && clock.At(index) - task.start > TIMEOUT) {
              tasks := tasks[index := TaskInfo(InProgress, worker, clock.start)];
              return Task(Map, index, numReduce), files[index];
            }
          }
          answer := Wait;
        case Reduce =>
          for index := 0 to |tasks|
            invariant tasks == old(tasks)
            invariant FirstAvailable(tasks, clock, 0) == FirstAvailable(tasks, clock, index)
          {
            var task := tasks[index];
            if task.state == Idle || (task.state == InProgress && clock.At(index) - task.start > TIMEOUT) {
              tasks := tasks[index := TaskInfo(InProgress, worker, clock.start)];
              return Task(Reduce, index, numMap), "";
            }
          }
          answer := Wait;
        case Exit =>
          answer := AllDone;
      }
    }

    /** The task index of a report for the running phase must exist: the source indexes its slice with it. */
    method ReportTaskDone(kind: Phase, id: nat, worker: int)
      requires Valid() && (kind == phase ==> id < |tasks|)
      modifies this`phase, this`tasks
      ensures Valid() && Value() == DoReport(old(Value()), kind, id, worker)
    {
      if kind != phase {
        return;
      }
      if tasks[id].state == Done {
        return;
      }
      tasks := tasks[id := tasks[id].(state := Done, worker := worker)];
      for index := 0 to |tasks|
        invariant forall i | 0 <= i < index :: tasks[i].state == Done
        invariant tasks == old(tasks)[id := old(tasks)[id].(state := Done, worker := worker)]
      {
        if tasks[index].state != Done {
          return;
        }
      }
      match phase {
        case Map =>
          phase := Reduce;
          tasks := FreshTasks(numReduce);
        case Reduce =>
          phase := Exit;
        case Exit =>
      }
    }

    method IsDone() returns (done: bool)
      requires Valid()
      ensures done <==> Value().phase == Exit
    {
      done := phase == Exit;
    }
  }

  // ---------------------------------------------------------------- runs of calls

  ghost predicate WellFormed(c: Coordinator) {
    && |c.tasks| == (if c.phase == Map then c.numMap else c.numReduce)
    && (c.phase == Exit ==> AllDoneIn(c.tasks))
  }

  datatype Call = Register | GetTask(worker: int, clock: Clock) | Report(phase: Phase, id: nat, worker: int)

  function Count(phase: Phase, numMap: nat, numReduce: nat): nat {
    match phase
    case Map => numMap
    case Reduce => numReduce
    case Exit => 0
  }

  /** A report names a task of the map or the reduce phase, as every worker's report does; it may come at any time, any
      number of times, and from anyone. */
  predicate Legal(call: Call, numMap: nat, numReduce: nat) {
    call.Report? ==> call.id < Count(call.phase, numMap, numReduce)
  }

  predicate AllLegal(calls: seq<Call>, numMap: nat, numReduce: nat) {
    forall i | 0 <= i < |calls| :: Legal(calls[i], numMap, numReduce)
  }

  /** One call. A legal report never indexes past the tasks. */
  ghost function After(c: Coordinator, call: Call): (c': Coordinator)
    requires WellFormed(c) && Legal(call, c.numMap, c.numReduce)
    ensures WellFormed(c') && c'.numMap == c.numMap && c'.numReduce == c.numReduce
  {
    match call
    case Register => DoRegister(c).0
    case GetTask(w, clock) => DoGetTask(c, w, clock).0
    case Report(p, id, w) => DoReport(c, p, id, w)
  }

  /** The state after a run of calls. */
  ghost function Reached(calls: seq<Call>, numMap: nat, numReduce: nat): (c: Coordinator)
    requires AllLegal(calls, numMap, numReduce)
    ensures WellFormed(c) && c.numMap == numMap && c.numReduce == numReduce
  {
    if calls == [] then NewCoordinator(numMap, numReduce)
    else After(Reached(calls[..|calls| - 1], numMap, numReduce), calls[|calls| - 1])
  }

  lemma {:induction false} ReachedNext(calls: seq<Call>, call: Call, numMap: nat, numReduce: nat)
    requires AllLegal(calls, numMap, numReduce) && Legal(call, numMap, numReduce)
    ensures AllLegal(calls + [call], numMap, numReduce)
    ensures Reached(calls + [call], numMap, numReduce) == After(Reached(calls, numMap, numReduce), call)
  {
    assert (calls + [call])[..|calls|] == calls;
  }

  // ---------------------------------------------------------------- maps before reduces

  predicate ReportOf(call: Call, phase: Phase, id: nat) {
    call.Report? && call.phase == phase && call.id == id
  }

  predicate Reported(calls: seq<Call>, phase: Phase, id: nat) {
    exists j :: 0 <= j < |calls| && ReportOf(calls[j], phase, id)
  }

  lemma {:induction false} ReportedGrows(calls: seq<Call>, call: Call, phase: Phase, id: nat)
    ensures Reported(calls, phase, id) || ReportOf(call, phase, id) ==> Reported(calls + [call], phase, id)
  {
    if Reported(calls, phase, id) {
      var j :| 0 <= j < |calls| && ReportOf(calls[j], phase, id);
      assert (calls + [call])[j] == calls[j];
    } else {
      assert (calls + [call])[|calls|] == call;
    }
  }

  /** The task is behind the coordinator: done in the running phase, or of an earlier phase. */
  predicate Closed(c: Coordinator, phase: Phase, id: nat) {
    match phase
    case Map => c.phase != Map || (id < |c.tasks| && c.tasks[id].state == Done)
    case Reduce => c.phase == Exit || (c.phase == Reduce && id < |c.tasks| && c.tasks[id].state == Done)
    case Exit => false
  }

  /** A call closes no task but the one it reports. */
  lemma {:induction false} OpenStays(c: Coordinator, call: Call, phase: Phase, id: nat)
    requires WellFormed(c) && Legal(call, c.numMap, c.numReduce) && id < Count(phase, c.numMap, c.numReduce)
    requires !Closed(c, phase, id) && !ReportOf(call, phase, id)
    ensures !Closed(After(c, call), phase, id)
  {
    if call.Report? && Effective(c, call.phase, call.id) && call.phase == phase {
      var d := c.tasks[call.id := c.tasks[call.id].(state := Done, worker := call.worker)];
      assert d[id].state != Done;
    }
  }

  /** A task is closed only after somebody reported it. */
  lemma {:induction false} ClosedWasReported(calls: seq<Call>, numMap: nat, numReduce: nat, phase: Phase, id: nat)
    requires AllLegal(calls, numMap, numReduce) && id < Count(phase, numMap, numReduce)
    requires Closed(Reached(calls, numMap, numReduce), phase, id)
    ensures Reported(calls, phase, id)
  {
    if calls != [] {
      var front, call := calls[..|calls| - 1], calls[|calls| - 1];
      assert calls == front + [call];
      ReportedGrows(front, call, phase, id);
      if Closed(Reached(front, numMap, numReduce), phase, id) {
        ClosedWasReported(front, numMap, numReduce, phase, id);
      } else if !ReportOf(call, phase, id) {
        OpenStays(Reached(front, numMap, numReduce), call, phase, id);
      }
    }
  }

  /** A reduce task is handed out only after every map task was reported, and the job is over only after every task
      was. */
  lemma {:induction false} ReducesFollowMaps(calls: seq<Call>, numMap: nat, numReduce: nat, worker: int, clock: Clock,
                                             m: nat, r: nat)
    requires AllLegal(calls, numMap, numReduce) && m < numMap && r < numReduce
    ensures var (_, answer) := DoGetTask(Reached(calls, numMap, numReduce), worker, clock);
            && (answer.Task? && answer.phase == Reduce ==> Reported(calls, Map, m))
            && (answer.AllDone? ==> Reported(calls, Map, m) && Reported(calls, Reduce, r))
  {
    var c := Reached(calls, numMap, numReduce);
    if c.phase != Map {
      ClosedWasReported(calls, numMap, numReduce, Map, m);
    }
    if c.phase == Exit {
      ClosedWasReported(calls, numMap, numReduce, Reduce, r);
    }
  }

  // ---------------------------------------------------------------- done tasks stay done

  lemma {:induction false} ClosedStays(c: Coordinator, call: Call, phase: Phase, id: nat)
    requires WellFormed(c) && Legal(call, c.numMap, c.numReduce) && Closed(c, phase, id)
    ensures Closed(After(c, call), phase, id)
  {
  }

  lemma {:induction false} ClosedNotHandedOut(c: Coordinator, worker: int, clock: Clock, phase: Phase, id: nat)
    requires Closed(c, phase, id)
    ensures var (_, answer) := DoGetTask(c, worker, clock);
            !(answer.Task? && answer.phase == phase && answer.id == id)
  {
  }

  lemma {:induction false} ClosedForever(calls: seq<Call>, more: seq<Call>, numMap: nat, numReduce: nat, phase: Phase,
                                         id: nat)
    requires AllLegal(calls, numMap, numReduce) && AllLegal(calls + more, numMap, numReduce)
    requires Closed(Reached(calls, numMap, numReduce), phase, id)
    ensures Closed(Reached(calls + more, numMap, numReduce), phase, id)
  {
    if more == [] {
      assert calls + more == calls;
    } else {
      var front, call := more[..|more| - 1], more[|more| - 1];
      assert (calls + more)[..|calls + more| - 1] == calls + front;
      assert (calls + more)[|calls + more| - 1] == call;
      ClosedForever(calls, front, numMap, numReduce, phase, id);
      ClosedStays(Reached(calls + front, numMap, numReduce), call, phase, id);
    }
  }

  /** Once a report for the running phase arrived, its task is never handed out again, whatever is called after it. */
  lemma {:induction false} DoneNeverHandedOutAgain(calls: seq<Call>, done: Call, more: seq<Call>, numMap: nat,
            numReduce: nat, worker: int, clock: Clock)
    requires AllLegal(calls + [done] + more, numMap, numReduce) && done.Report?
    requires AllLegal(calls, numMap, numReduce) && Reached(calls, numMap, numReduce).phase == done.phase
    ensures var (_, answer) := DoGetTask(Reached(calls + [done] + more, numMap, numReduce), worker, clock);
            !(answer.Task? && answer.phase == done.phase && answer.id == done.id)
  {
    assert (calls + [done] + more)[|calls|] == done;
    ReachedNext(calls, done, numMap, numReduce);
    ClosedForever(calls + [done], more, numMap, numReduce, done.phase, done.id);
    ClosedNotHandedOut(Reached(calls + [done] + more, numMap, numReduce), worker, clock, done.phase, done.id);
  }

  // ---------------------------------------------------------------- who is given what

  /**
   An ask is answered with a task exactly when one may be handed out, the first such; it is then out with this worker
   from now on and no other task is touched. Wait is said only while the job goes on and every task is done or out in
   time.
   */
  lemma {:induction false} GetTaskExact(c: Coordinator, worker: int, clock: Clock)
    ensures var (c', answer) := DoGetTask(c, worker, clock);
            && (answer.AllDone? <==> c.phase == Exit)
            && (answer.Wait? <==>
                  c.phase != Exit && forall i | 0 <= i < |c.tasks| :: !Available(c.tasks[i], clock.At(i)))
            && (!answer.Task? ==> c' == c)
            && (answer.Task? ==>
                  && answer.phase == c.phase && answer.slices == (if c.phase == Map then c.numReduce else c.numMap)
                  && answer.id < |c.tasks| == |c'.tasks| && c' == c.(tasks := c'.tasks)
                  && Available(c.tasks[answer.id], clock.At(answer.id))
                  && (forall j | 0 <= j < answer.id :: !Available(c.tasks[j], clock.At(j)))
                  && c'.tasks[answer.id] == TaskInfo(InProgress, worker, clock.start)
                  && forall j | 0 <= j < |c.tasks| && j != answer.id :: c'.tasks[j] == c.tasks[j])
  {
    assert c.phase != Exit && FirstAvailable(c.tasks, clock, 0) < |c.tasks| ==>
        Available(c.tasks[FirstAvailable(c.tasks, clock, 0)], clock.At(FirstAvailable(c.tasks, clock, 0)));
  }

  /** All tasks but this one are done. */
  predicate LastOpen(tasks: seq<TaskInfo>, id: nat) {
    forall i | 0 <= i < |tasks| && i != id :: tasks[i].state == Done
  }

  /**
   A report that comes late, twice or for another phase changes nothing. Any other marks its task as done by its worker;
   the last one of the map phase opens the reduce phase with all its tasks idle, and the last one of that ends the job.
   */
  lemma {:induction false} ReportExact(c: Coordinator, phase: Phase, id: nat, worker: int)
    requires WellFormed(c) && (phase == c.phase ==> id < |c.tasks|)
    ensures var c' := DoReport(c, phase, id, worker);
            && c' == c.(phase := c'.phase, tasks := c'.tasks)
            && if !Effective(c, phase, id) then c' == c
               else if !LastOpen(c.tasks, id) then
                 && c'.phase == c.phase && |c'.tasks| == |c.tasks|
                 && c'.tasks[id].state == Done && c'.tasks[id].worker == worker
                 && forall i | 0 <= i < |c.tasks| && i != id :: c'.tasks[i] == c.tasks[i]
               else if c.phase == Map then
                 && c'.phase == Reduce && |c'.tasks| == c.numReduce
                 && forall i | 0 <= i < c.numReduce :: c'.tasks[i].state == Idle
               else c'.phase == Exit
  {
    if Effective(c, phase, id) {
      var d := c.tasks[id := c.tasks[id].(state := Done, worker := worker)];
      assert AllDoneIn(d) <==> LastOpen(c.tasks, id) by {
        forall i | 0 <= i < |d| && i != id ensures d[i] == c.tasks[i] {
        }
      }
    }
  }

  /** The coordinator before call k of a run. */
  ghost function Before(calls: seq<Call>, k: nat, numMap: nat, numReduce: nat): (c: Coordinator)
    requires AllLegal(calls, numMap, numReduce) && k <= |calls|
    ensures WellFormed(c) && c.numMap == numMap && c.numReduce == numReduce
  {
    if k == 0 then NewCoordinator(numMap, numReduce)
    else After(Before(calls, k - 1, numMap, numReduce), calls[k - 1])
  }

  /** Call i of the run hands out the task. */
  ghost predicate HandsOut(calls: seq<Call>, i: nat, numMap: nat, numReduce: nat, phase: Phase, id: nat)
    requires AllLegal(calls, numMap, numReduce) && i < |calls|
  {
    calls[i].GetTask? && Gives(Before(calls, i, numMap, numReduce), calls[i].worker, calls[i].clock, phase, id)
  }

  predicate Gives(c: Coordinator, worker: int, clock: Clock, phase: Phase, id: nat) {
    var answer := DoGetTask(c, worker, clock).1;
    answer.Task? && answer.phase == phase && answer.id == id
  }

  /** The task is out since the given time, or behind the coordinator. */
  ghost predicate OutSince(c: Coordinator, phase: Phase, id: nat, start: int) {
    Closed(c, phase, id) ||
      (c.phase == phase && id < |c.tasks| && c.tasks[id].state == InProgress && c.tasks[id].start == start)
  }

  lemma {:induction false} StaysOut(c: Coordinator, call: Call, phase: Phase, id: nat, start: int)
    requires WellFormed(c) && Legal(call, c.numMap, c.numReduce) && OutSince(c, phase, id, start)
    requires call.GetTask? ==> !Gives(c, call.worker, call.clock, phase, id)
    ensures OutSince(After(c, call), phase, id, start)
  {
    if Closed(c, phase, id) {
      ClosedStays(c, call, phase, id);
    }
  }

  lemma {:induction false} OutBetween(calls: seq<Call>, i: nat, k: nat, numMap: nat, numReduce: nat, phase: Phase,
                                      id: nat)
    requires AllLegal(calls, numMap, numReduce) && i < k <= |calls|
    requires HandsOut(calls, i, numMap, numReduce, phase, id)
    requires forall j | i < j < k :: !HandsOut(calls, j, numMap, numReduce, phase, id)
    ensures OutSince(Before(calls, k, numMap, numReduce), phase, id, calls[i].clock.start)
  {
    if k == i + 1 {
      GetTaskExact(Before(calls, i, numMap, numReduce), calls[i].worker, calls[i].clock);
    } else {
      OutBetween(calls, i, k - 1, numMap, numReduce, phase, id);
      assert !HandsOut(calls, k - 1, numMap, numReduce, phase, id);
      StaysOut(Before(calls, k - 1, numMap, numReduce), calls[k - 1], phase, id, calls[i].clock.start);
    }
  }

  /** A task that is out is only handed out when it is overdue. */
  lemma {:induction false} GivenWhenOverdue(c: Coordinator, worker: int, clock: Clock, phase: Phase, id: nat,
                                            start: int)
    requires OutSince(c, phase, id, start) && Gives(c, worker, clock, phase, id)
    ensures clock.At(id) - start > TIMEOUT
  {
    GetTaskExact(c, worker, clock);
    if Closed(c, phase, id) {
      ClosedNotHandedOut(c, worker, clock, phase, id);
    }
  }

  /**
   In every run of calls, a task that was handed out is not handed out again before it is overdue: between two
   consecutive hand-outs of the same task more than the timeout has passed.
   */
  lemma {:induction false} NotTwiceInTime(calls: seq<Call>, i: nat, j: nat, numMap: nat, numReduce: nat, phase: Phase,
                                          id: nat)
    requires AllLegal(calls, numMap, numReduce) && i < j < |calls|
    requires HandsOut(calls, i, numMap, numReduce, phase, id) && HandsOut(calls, j, numMap, numReduce, phase, id)
    requires forall k | i < k < j :: !HandsOut(calls, k, numMap, numReduce, phase, id)
    ensures calls[j].clock.At(id) - calls[i].clock.start > TIMEOUT
  {
    OutBetween(calls, i, j, numMap, numReduce, phase, id);
    GivenWhenOverdue(Before(calls, j, numMap, numReduce), calls[j].worker, calls[j].clock, phase, id,
      calls[i].clock.start);
  }

  lemma {:induction false} CounterStep(c: Coordinator, call: Call)
    requires WellFormed(c) && Legal(call, c.numMap, c.numReduce)
    ensures After(c, call).nextWorker == c.nextWorker + if call.Register? && c.phase != Exit then 1 else 0
  {
  }

  lemma {:induction false} CounterGrows(calls: seq<Call>, i: nat, j: nat, numMap: nat, numReduce: nat)
    requires AllLegal(calls, numMap, numReduce) && i <= j <= |calls|
    ensures Before(calls, i, numMap, numReduce).nextWorker <= Before(calls, j, numMap, numReduce).nextWorker
    decreases j
  {
    if i < j {
      CounterGrows(calls, i, j - 1, numMap, numReduce);
      CounterStep(Before(calls, j - 1, numMap, numReduce), calls[j - 1]);
    }
  }

  /** In every run of calls no two workers get the same id, and one is refused exactly when the job is over. */
  lemma {:induction false} IdsDiffer(calls: seq<Call>, i: nat, j: nat, numMap: nat, numReduce: nat)
    requires AllLegal(calls, numMap, numReduce) && i < j < |calls| && calls[i].Register? && calls[j].Register?
    ensures var a, b := Before(calls, i, numMap, numReduce), Before(calls, j, numMap, numReduce);
            && (DoRegister(a).1 >= 0 <==> a.phase != Exit)
            && (DoRegister(b).1 >= 0 ==> DoRegister(a).1 < DoRegister(b).1)
  {
    CounterStep(Before(calls, i, numMap, numReduce), calls[i]);
    CounterGrows(calls, i + 1, j, numMap, numReduce);
  }

  // ---------------------------------------------------------------- how many reports count

  function OpenTasks(tasks: seq<TaskInfo>): nat {
    if tasks == [] then 0 else OpenTasks(tasks[..|tasks| - 1]) + if tasks[|tasks| - 1].state == Done then 0 else 1
  }

  lemma {:induction false} OpenAfter(tasks: seq<TaskInfo>, k: nat, t: TaskInfo)
    requires k < |tasks|
    ensures OpenTasks(tasks[k := t]) == OpenTasks(tasks) - (if tasks[k].state == Done then 0 else 1) +
              (if t.state == Done then 0 else 1)
  {
    var n := |tasks| - 1;
    if k == n {
      assert tasks[k := t][..n] == tasks[..n];
    } else {
      OpenAfter(tasks[..n], k, t);
      assert tasks[k := t][..n] == tasks[..n][k := t];
    }
  }

  lemma {:induction false} OpenZero(tasks: seq<TaskInfo>)
    ensures OpenTasks(tasks) == 0 <==> AllDoneIn(tasks)
  {
    if tasks != [] {
      var n := |tasks| - 1;
      OpenZero(tasks[..n]);
      assert AllDoneIn(tasks) <==> AllDoneIn(tasks[..n]) && tasks[n].state == Done;
    }
  }

  lemma {:induction false} OpenFresh(n: nat)
    ensures OpenTasks(FreshTasks(n)) == n
  {
    if n > 0 {
      OpenFresh(n - 1);
      assert FreshTasks(n)[..n - 1] == FreshTasks(n - 1);
    }
  }

  /** The reports still needed. */
  function Left(c: Coordinator): nat {
    match c.phase
    case Map => OpenTasks(c.tasks) + c.numReduce
    case Reduce => OpenTasks(c.tasks)
    case Exit => 0
  }

  /** Every effective report brings the job one step nearer to its end, and no other call moves it. */
  lemma {:induction false} LeftDrops(c: Coordinator, call: Call)
    requires WellFormed(c) && Legal(call, c.numMap, c.numReduce)
    ensures Left(After(c, call)) == Left(c) - if call.Report? && Effective(c, call.phase, call.id) then 1 else 0
  {
    match call
    case Register =>
    case GetTask(w, clock) =>
      var k := FirstAvailable(c.tasks, clock, 0);
      if c.phase != Exit && k < |c.tasks| {
        OpenAfter(c.tasks, k, TaskInfo(InProgress, w, clock.start));
      }
    case Report(p, id, w) =>
      if Effective(c, p, id) {
        var t := c.tasks[id].(state := Done, worker := w);
        OpenAfter(c.tasks, id, t);
        OpenZero(c.tasks[id := t]);
        OpenFresh(c.numReduce);
      }
  }

  ghost function EffectiveReports(calls: seq<Call>, numMap: nat, numReduce: nat): nat
    requires AllLegal(calls, numMap, numReduce)
  {
    if calls == [] then 0
    else
      var front, call := calls[..|calls| - 1], calls[|calls| - 1];
      EffectiveReports(front, numMap, numReduce)
      + if call.Report? && Effective(Reached(front, numMap, numReduce), call.phase, call.id) then 1 else 0
  }

  lemma {:induction false} ReportsAddUp(calls: seq<Call>, numMap: nat, numReduce: nat)
    requires AllLegal(calls, numMap, numReduce)
    ensures EffectiveReports(calls, numMap, numReduce) + Left(Reached(calls, numMap, numReduce)) == numMap + numReduce
  {
    if calls == [] {
      OpenFresh(numMap);
    } else {
      var front, call := calls[..|calls| - 1], calls[|calls| - 1];
      ReportsAddUp(front, numMap, numReduce);
      LeftDrops(Reached(front, numMap, numReduce), call);
    }
  }

  /** However often tasks are handed out again and reports are repeated, a finished run has exactly one effective
      report for each task. */
  lemma {:induction false} FinishedRunCounts(calls: seq<Call>, numMap: nat, numReduce: nat)
    requires AllLegal(calls, numMap, numReduce) && Reached(calls, numMap, numReduce).phase == Exit
    ensures EffectiveReports(calls, numMap, numReduce) == numMap + numReduce
  {
    ReportsAddUp(calls, numMap, numReduce);
  }

  // ---------------------------------------------------------------- which jobs can finish

  lemma {:induction false} EmptyPhaseNeverEnds(calls: seq<Call>, numMap: nat, numReduce: nat)
    requires AllLegal(calls, numMap, numReduce)
    ensures numMap == 0 ==> Reached(calls, numMap, numReduce).phase == Map
    ensures numReduce == 0 ==> Reached(calls, numMap, numReduce).phase != Exit
  {
    if calls != [] {
      EmptyPhaseNeverEnds(calls[..|calls| - 1], numMap, numReduce);
    }
  }

  function Reports(phase: Phase, n: nat): seq<Call> {
    seq(n, i requires 0 <= i < n => Report(phase, i, 0))
  }

  ghost predicate DoneUpTo(c: Coordinator, phase: Phase, k: nat) {
    c.phase == phase && forall i | 0 <= i < |c.tasks| :: c.tasks[i].state == Done <==> i < k
  }

  lemma {:induction false} ReportNext(c: Coordinator, phase: Phase, k: nat)
    requires WellFormed(c) && DoneUpTo(c, phase, k) && k + 1 < |c.tasks|
    ensures DoneUpTo(DoReport(c, phase, k, 0), phase, k + 1)
  {
    var d := c.tasks[k := c.tasks[k].(state := Done, worker := 0)];
    assert d[k + 1].state != Done;
  }

  lemma {:induction false} DriveTo(calls: seq<Call>, phase: Phase, k: nat, numMap: nat, numReduce: nat)
    requires AllLegal(calls, numMap, numReduce) && DoneUpTo(Reached(calls, numMap, numReduce), phase, 0)
    requires phase != Exit && k < Count(phase, numMap, numReduce)
    ensures AllLegal(calls + Reports(phase, k), numMap, numReduce)
    ensures DoneUpTo(Reached(calls + Reports(phase, k), numMap, numReduce), phase, k)
  {
    if k == 0 {
      assert calls + Reports(phase, 0) == calls;
    } else {
      DriveTo(calls, phase, k - 1, numMap, numReduce);
      assert calls + Reports(phase, k) == calls + Reports(phase, k - 1) + [Report(phase, k - 1, 0)];
      DriveOne(calls + Reports(phase, k - 1), phase, k - 1, numMap, numReduce);
    }
  }

  lemma {:induction false} DriveOne(calls: seq<Call>, phase: Phase, k: nat, numMap: nat, numReduce: nat)
    requires AllLegal(calls, numMap, numReduce) && DoneUpTo(Reached(calls, numMap, numReduce), phase, k)
    requires phase != Exit && k + 1 < Count(phase, numMap, numReduce)
    ensures AllLegal(calls + [Report(phase, k, 0)], numMap, numReduce)
    ensures DoneUpTo(Reached(calls + [Report(phase, k, 0)], numMap, numReduce), phase, k + 1)
  {
    ReachedNext(calls, Report(phase, k, 0), numMap, numReduce);
    ReportNext(Reached(calls, numMap, numReduce), phase, k);
  }

  lemma {:induction false} DrivePhase(calls: seq<Call>, phase: Phase, numMap: nat, numReduce: nat)
    returns (more: seq<Call>)
    requires AllLegal(calls, numMap, numReduce) && DoneUpTo(Reached(calls, numMap, numReduce), phase, 0)
    requires phase != Exit && Count(phase, numMap, numReduce) > 0
    ensures AllLegal(more, numMap, numReduce)
    ensures phase == Map ==> DoneUpTo(Reached(more, numMap, numReduce), Reduce, 0)
    ensures phase == Reduce ==> Reached(more, numMap, numReduce).phase == Exit
  {
    var n := Count(phase, numMap, numReduce);
    DriveTo(calls, phase, n - 1, numMap, numReduce);
    var front := calls + Reports(phase, n - 1);
    ReachedNext(front, Report(phase, n - 1, 0), numMap, numReduce);
    more := front + [Report(phase, n - 1, 0)];
    var c := Reached(front, numMap, numReduce);
    var d := c.tasks[n - 1 := c.tasks[n - 1].(state := Done, worker := 0)];
    assert AllDoneIn(d);
  }

  /** Done can ever answer true exactly when there is an input file and a reduce slice: with either missing the phase
      has no task whose report would end it. */
  lemma {:induction false} FinishesIffNotEmpty(numMap: nat, numReduce: nat)
    ensures (exists calls :: AllLegal(calls, numMap, numReduce) && Reached(calls, numMap, numReduce).phase == Exit)
            <==> numMap > 0 && numReduce > 0
  {
    forall calls | AllLegal(calls, numMap, numReduce)
      ensures numMap == 0 || numReduce == 0 ==> Reached(calls, numMap, numReduce).phase != Exit
    {
      EmptyPhaseNeverEnds(calls, numMap, numReduce);
    }
    if numMap > 0 && numReduce > 0 {
      var mapped := DrivePhase([], Map, numMap, numReduce);
      var finished := DrivePhase(mapped, Reduce, numMap, numReduce);
      assert Reached(finished, numMap, numReduce).phase == Exit;
    }
  }
}
