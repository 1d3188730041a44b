/**
 Which MapReduce jobs finish. Workers may have stopped, reports may be lost, tasks may be
 out with workers that never come back: from every state of every run a new worker can
 still bring the job to its end, unless there is nothing to do or a pair was emitted that
 no worker can read back.
 */
module MrProgress {
  import opened Basics
  import opened MrRecords
  import opened MrText
  import opened MrGrouping
  import opened MrJob
  import C = MrCoordinator
  import Runs

  // ---------------------------------------------------------------- what a worker makes of an answer

  /**
   Told to wait it asks again, told to exit it stops. A map task of an existing file gets one slice for each reduce
   task, and each emitted pair is in the slice of its key, as often as it was emitted, and in no other. A reduce task
   starts with nothing read and all map tasks to read.
   */
  lemma {:induction false} BeginExact(job: Job, answer: C.Answer, kv: KeyValue)
    ensures var worker := Begin(job, answer);
            match answer {
              case Wait => worker.Idle?
              case AllDone => worker.Dead?
              case Task(phase, id, n) =>
                && (phase == C.Reduce ==> worker == Reading(id, n, 0, []))
                && (phase == C.Map && id < |job.inputs| && n > 0 ==>
                      && worker.Mapping? && worker.task == id && worker.next == 0 && |worker.slices| == n
                      && forall r | 0 <= r < n ::
                           multiset(worker.slices[r])[kv] ==
                             if job.hash(kv.key) % n == r then multiset(MapOutput(job, id))[kv] else 0)
            }
  {
    if answer.Task? && answer.phase == C.Map && answer.id < |job.inputs| && answer.slices > 0 {
      forall r | 0 <= r < answer.slices
        ensures multiset(Bucket(MapOutput(job, answer.id), Slots(job.hash, answer.slices), r))[kv] ==
                  if job.hash(kv.key) % answer.slices == r then multiset(MapOutput(job, answer.id))[kv] else 0
      {
        BucketCount(MapOutput(job, answer.id), Slots(job.hash, answer.slices), r, kv);
      }
    }
  }

  // ---------------------------------------------------------------- where a state leads

  function Can(job: Job): (System, Step) -> bool {
    (s: System, step: Step) => Enabled(job, s, step)
  }

  function Move(job: Job): (System, Step) -> System {
    (s: System, step: Step) => if Enabled(job, s, step) then Next(job, s, step) else s
  }

  ghost predicate Leads(job: Job, s: System, t: System) {
    Runs.Leads(Can(job), Move(job), s, t)
  }

  /** There is something to map and something to reduce. */
  predicate NotEmpty(job: Job) {
    |job.inputs| > 0 && job.numReduce > 0
  }

  /** A phase that is not over has a task that is not done. */
  predicate Unfinished(c: C.Coordinator) {
    c.phase != C.Exit ==> !C.AllDoneIn(c.tasks)
  }

  ghost predicate Good(job: Job, s: System) {
    Inv(job, s) && Unfinished(s.coord)
  }

  lemma {:induction false} StepKeepsUnfinished(job: Job, s: System, step: Step)
    requires NotEmpty(job) && Good(job, s) && Enabled(job, s, step)
    ensures Unfinished(Next(job, s, step).coord)
  {
    var c, c' := s.coord, Next(job, s, step).coord;
    if step.Ask? && c' != c {
      var k := C.FirstAvailable(c.tasks, step.clock, 0);
      assert c'.tasks[k].state == C.InProgress;
    } else if c'.phase == C.Reduce && c.phase == C.Map {
      assert c'.tasks[0].state == C.Idle;
    }
  }

  lemma {:induction false} GoodAt(job: Job, ss: seq<System>, steps: seq<Step>, i: nat)
    requires NotEmpty(job) && IsRun(job, ss, steps) && i <= |steps|
    ensures Good(job, ss[i])
  {
    InvAt(job, ss, steps, i);
    if i > 0 {
      GoodAt(job, ss, steps, i - 1);
      StepKeepsUnfinished(job, ss[i - 1], steps[i - 1]);
    } else {
      assert C.FreshTasks(|job.inputs|)[0].state == C.Idle;
    }
  }

  lemma {:induction false} Go(job: Job, s: System, t: System, step: Step) returns (u: System)
    requires NotEmpty(job) && Leads(job, s, t) && Good(job, t) && Enabled(job, t, step)
    ensures u == Next(job, t, step) && Leads(job, s, u) && Good(job, u)
  {
    u := Next(job, t, step);
    Runs.One(Can(job), Move(job), t, step);
    Runs.Join(Can(job), Move(job), s, t, u);
    StepKeepsInv(job, t, step);
    StepKeepsUnfinished(job, t, step);
  }

  lemma {:induction false} Continue(job: Job, ss: seq<System>, steps: seq<Step>, t: System)
    returns (ss': seq<System>, steps': seq<Step>)
    requires IsRun(job, ss, steps) && Leads(job, ss[|steps|], t)
    ensures IsRun(job, ss', steps') && ss <= ss' && steps <= steps' && ss'[|steps'|] == t
  {
    ss', steps' := Runs.Continue(Can(job), Move(job), ss, steps, t);
    assert ss'[0] == ss[0];
  }

  /** Worker w has moved, and files. */
  ghost predicate OnlyMoves(t: System, u: System, w: int, worker: Worker) {
    u.coord == t.coord && u.reports == t.reports && u.workers == t.workers[w := worker]
  }

  // ---------------------------------------------------------------- a worker does its task

  /** A file that is being written is completed and renamed. */
  lemma {:induction false} WritesFile(job: Job, s: System, t: System, w: int) returns (u: System)
    requires NotEmpty(job) && Leads(job, s, t) && Good(job, t) && w in t.workers && t.workers[w].Writing?
    ensures Leads(job, s, u) && Good(job, u) && OnlyMoves(t, u, w, t.workers[w].after)
    decreases |t.workers[w].records| - t.workers[w].written
  {
    assert WorkerOk(job, t.files, w, t.workers[w]);
    if t.workers[w].written == |t.workers[w].records| {
      u := Go(job, s, t, Publish(w));
    } else {
      u := Go(job, s, t, Write(w));
      u := WritesFile(job, s, u, w);
    }
  }

  lemma {:induction false} SortExists(kvs: seq<KeyValue>) returns (sorted: seq<KeyValue>)
    ensures IsSortOf(sorted, kvs)
  {
    if kvs == [] {
      sorted := [];
    } else {
      var n := |kvs| - 1;
      sorted := SortExists(kvs[..n]);
      var i := InsertionPoint(sorted, kvs[n]);
      InsertKeepsSorted(sorted, i, kvs[n]);
      InsertCounts(sorted, i, kvs[n]);
      assert kvs == kvs[..n] + [kvs[n]];
      sorted := sorted[..i] + [kvs[n]] + sorted[i..];
    }
  }

  lemma {:induction false} InsertionPoint(sorted: seq<KeyValue>, kv: KeyValue) returns (i: nat)
    requires Sorted(sorted)
    ensures i <= |sorted| && (forall k | i <= k < |sorted| :: Less(kv.key, sorted[k].key))
    ensures i > 0 ==> !Less(kv.key, sorted[i - 1].key)
  {
    i := |sorted|;
    while i > 0 && Less(kv.key, sorted[i - 1].key)
      invariant 0 <= i <= |sorted|
      invariant forall k | i <= k < |sorted| :: Less(kv.key, sorted[k].key)
    {
      i := i - 1;
    }
  }

  /** A map worker sorts, writes and renames slice after slice. */
  lemma {:induction false} WritesSlices(job: Job, s: System, t: System, w: int) returns (u: System)
    requires NotEmpty(job) && Leads(job, s, t) && Good(job, t) && w in t.workers && t.workers[w].Mapping?
    requires t.workers[w].next <= |t.workers[w].slices|
    ensures Leads(job, s, u) && Good(job, u)
    ensures var worker := t.workers[w];
            OnlyMoves(t, u, w, Mapping(worker.task, worker.slices, |worker.slices|))
    decreases |t.workers[w].slices| - t.workers[w].next
  {
    u := t;
    if t.workers[w].next < |t.workers[w].slices| {
      var sorted := SortExists(t.workers[w].slices[t.workers[w].next]);
      u := Go(job, s, t, Open(w, sorted));
      u := WritesFile(job, s, u, w);
      u := WritesSlices(job, s, u, w);
    }
  }

  /** Everything the map calls emit can be read back, as it was or as something else. */
  ghost predicate ReadableJob(job: Job) {
    forall m | 0 <= m < |job.inputs| :: SliceReadable(MapOutput(job, m))
  }

  ghost predicate SliceReadable(kvs: seq<KeyValue>) {
    forall kv | kv in kvs :: Readable(kv)
  }

  /** What a bucket holds was emitted. */
  lemma {:induction false} BucketReadable(job: Job, m: nat, r: nat)
    requires m < |job.inputs| && SliceReadable(MapOutput(job, m))
    ensures SliceReadable(MapSlice(job, m, r))
  {
    forall kv | kv in MapSlice(job, m, r) ensures Readable(kv) {
      BucketCount(MapOutput(job, m), SlotOf(job), r, kv);
      assert kv in multiset(MapSlice(job, m, r));
      assert kv in MapOutput(job, m);
    }
  }

  /** A published slice can be read exactly when its pairs can. */
  lemma {:induction false} SliceReadsIff(job: Job, files: Files, m: nat, r: nat)
    requires FilesOk(job, files) && Intermediate(m, r) in files
    ensures m < |job.inputs|
    ensures Parse(files[Intermediate(m, r)]).Some? <==> SliceReadable(MapSlice(job, m, r))
  {
    var f := Intermediate(m, r);
    assert FileOk(job, f, files[f]);
    var records :| SliceRecords(job, m, r, records) && files[f] == Text(records);
    ReadsIffReadable(records);
    forall kv ensures kv in records <==> kv in MapSlice(job, m, r) {
      assert kv in records <==> kv in multiset(records);
      assert kv in MapSlice(job, m, r) <==> kv in multiset(MapSlice(job, m, r));
    }
  }

  lemma {:induction false} ReadsOne(job: Job, s: System, t: System, w: int) returns (u: System)
    requires NotEmpty(job) && ReadableJob(job) && Leads(job, s, t) && Good(job, t)
    requires w in t.workers && t.workers[w].Reading? && t.workers[w].next < t.workers[w].count
    ensures Leads(job, s, u) && Good(job, u) && w in u.workers && OnlyMoves(t, u, w, u.workers[w])
    ensures u.workers[w].Reading? && u.workers[w].task == t.workers[w].task
    ensures u.workers[w].count == t.workers[w].count && u.workers[w].next == t.workers[w].next + 1
  {
    NextReads(job, t, w);
    u := Go(job, s, t, Read(w));
  }

  /** A reduce worker reads file after file. */
  lemma {:induction false} ReadsSlices(job: Job, s: System, t: System, w: int) returns (u: System)
    requires NotEmpty(job) && ReadableJob(job) && Leads(job, s, t) && Good(job, t)
    requires w in t.workers && t.workers[w].Reading? && t.workers[w].next <= t.workers[w].count
    ensures Leads(job, s, u) && Good(job, u) && w in u.workers && OnlyMoves(t, u, w, u.workers[w])
    ensures u.workers[w].Reading? && u.workers[w].task == t.workers[w].task
    ensures u.workers[w].next == u.workers[w].count == t.workers[w].count
    decreases t.workers[w].count - t.workers[w].next
  {
    u := t;
    if t.workers[w].next < t.workers[w].count {
      u := ReadsOne(job, s, t, w);
      u := ReadsSlices(job, s, u, w);
    }
  }

  /** The next file is there and can be read. */
  lemma {:induction false} NextReads(job: Job, t: System, w: int)
    requires ReadableJob(job) && Inv(job, t)
    requires w in t.workers && t.workers[w].Reading? && t.workers[w].next < t.workers[w].count
    ensures AfterRead(t.files, t.workers[w]).Reading?
  {
    var m, r := t.workers[w].next, t.workers[w].task;
    assert WorkerOk(job, t.files, w, t.workers[w]);
    assert MapPublished(job, t.files, m);
    BucketReadable(job, m, r);
    SliceReadsIff(job, t.files, m, r);
  }

  /** The report is on its way. */
  ghost predicate Reports(t: System, u: System, w: int, report: C.Call) {
    u.coord == t.coord && report in u.reports && w in u.workers
  }

  /** Wherever in its task a new map worker stands, it comes to report it. */
  lemma {:induction false} MapIsReported(job: Job, s: System, t: System, w: int) returns (u: System)
    requires NotEmpty(job) && Leads(job, s, t) && Good(job, t) && w in t.workers && t.workers[w].Mapping?
    ensures Leads(job, s, u) && Good(job, u) && Reports(t, u, w, C.Report(C.Map, t.workers[w].task, w))
  {
    assert WorkerOk(job, t.files, w, t.workers[w]);
    u := WritesSlices(job, s, t, w);
    u := Go(job, s, u, Send(w));
  }

  lemma {:induction false} ReduceIsReported(job: Job, s: System, t: System, w: int) returns (u: System)
    requires NotEmpty(job) && ReadableJob(job) && Leads(job, s, t) && Good(job, t)
    requires w in t.workers && t.workers[w].Reading?
    ensures Leads(job, s, u) && Good(job, u) && Reports(t, u, w, C.Report(C.Reduce, t.workers[w].task, w))
  {
    assert WorkerOk(job, t.files, w, t.workers[w]);
    u := ReadsSlices(job, s, t, w);
    var sorted := SortExists(u.workers[w].kvs);
    u := Go(job, s, u, Open(w, sorted));
    u := WritesFile(job, s, u, w);
    u := Go(job, s, u, Send(w));
  }

  // ---------------------------------------------------------------- the job goes on

  /** A clock late enough for every task that is out to be overdue. */
  function LateClock(tasks: seq<C.TaskInfo>): C.Clock {
    C.Clock(seq(|tasks|, i requires 0 <= i < |tasks| => tasks[i].start + C.TIMEOUT + 1), 0)
  }

  /** Late enough, a task that is not done is handed out. */
  lemma {:induction false} LateAnswer(c: C.Coordinator, w: int)
    requires c.phase != C.Exit && !C.AllDoneIn(c.tasks)
    ensures var (c', answer) := C.DoGetTask(c, w, LateClock(c.tasks));
            && answer.Task? && answer.phase == c.phase && answer.id < |c.tasks|
            && c' == c.(tasks := c'.tasks) && |c'.tasks| == |c.tasks| && c'.tasks[answer.id].state == C.InProgress
  {
    var i :| 0 <= i < |c.tasks| && c.tasks[i].state != C.Done;
    assert C.Available(c.tasks[i], LateClock(c.tasks).At(i));
  }

  /** A new worker joins and is given a task. */
  lemma {:induction false} WorkerJoins(job: Job, s: System, t: System) returns (u: System, w: int, id: nat)
    requires NotEmpty(job) && Leads(job, s, t) && Good(job, t) && t.coord.phase != C.Exit
    ensures Leads(job, s, u) && Good(job, u) && w in u.workers && u.coord.phase == t.coord.phase
    ensures C.Left(u.coord) == C.Left(t.coord)
    ensures id < |u.coord.tasks| && u.coord.tasks[id].state == C.InProgress
    ensures if t.coord.phase == C.Map then u.workers[w].Mapping? && u.workers[w].task == id
            else u.workers[w].Reading? && u.workers[w].task == id
  {
    w := t.coord.nextWorker;
    u := Go(job, s, t, Register);
    C.LeftDrops(t.coord, C.Register);
    var clock := LateClock(u.coord.tasks);
    LateAnswer(u.coord, w);
    C.LeftDrops(u.coord, C.GetTask(w, clock));
    id := C.DoGetTask(u.coord, w, clock).1.id;
    u := Go(job, s, u, Ask(w, clock, true));
  }

  /** The report arrives and counts. */
  lemma {:induction false} ReportCounts(job: Job, s: System, t: System, report: C.Call) returns (u: System)
    requires NotEmpty(job) && Leads(job, s, t) && Good(job, t) && report in t.reports && report.Report?
    requires report.phase == t.coord.phase && report.id < |t.coord.tasks|
    requires t.coord.phase != C.Exit && t.coord.tasks[report.id].state != C.Done
    ensures Leads(job, s, u) && Good(job, u) && C.Left(u.coord) == C.Left(t.coord) - 1
  {
    C.LeftDrops(t.coord, report);
    u := Go(job, s, t, Receive(report));
  }

  /** One more task is done. */
  lemma {:induction false} OneTaskDone(job: Job, s: System, t: System) returns (u: System)
    requires NotEmpty(job) && ReadableJob(job) && Leads(job, s, t) && Good(job, t) && t.coord.phase != C.Exit
    ensures Leads(job, s, u) && Good(job, u) && C.Left(u.coord) == C.Left(t.coord) - 1
  {
    var w, id;
    u, w, id := WorkerJoins(job, s, t);
    if t.coord.phase == C.Map {
      u := MapIsReported(job, s, u, w);
      u := ReportCounts(job, s, u, C.Report(C.Map, id, w));
    } else {
      u := ReduceIsReported(job, s, u, w);
      u := ReportCounts(job, s, u, C.Report(C.Reduce, id, w));
    }
  }

  lemma {:induction false} AllTasksDone(job: Job, s: System, t: System) returns (u: System)
    requires NotEmpty(job) && ReadableJob(job) && Leads(job, s, t) && Good(job, t)
    ensures Leads(job, s, u) && u.coord.phase == C.Exit
    decreases C.Left(t.coord)
  {
    u := t;
    if t.coord.phase != C.Exit {
      u := OneTaskDone(job, s, t);
      u := AllTasksDone(job, s, u);
    }
  }

  /**
   From every state of every run, whoever stopped and whatever was lost, a job that has something to do and emits only
   pairs that can be read back can be brought to its end.
   */
  lemma {:induction false} JobCanFinish(job: Job, ss: seq<System>, steps: seq<Step>)
    returns (ss': seq<System>, steps': seq<Step>)
    requires NotEmpty(job) && ReadableJob(job) && IsRun(job, ss, steps)
    ensures IsRun(job, ss', steps') && ss <= ss' && steps <= steps' && ss'[|steps'|].coord.phase == C.Exit
  {
    GoodAt(job, ss, steps, |steps|);
    Runs.Stay(Can(job), Move(job), ss[|steps|]);
    var t := AllTasksDone(job, ss[|steps|], ss[|steps|]);
    ss', steps' := Continue(job, ss, steps, t);
  }

  // ---------------------------------------------------------------- the other jobs never finish

  /** All slices for reduce task r can be read. */
  ghost predicate ColumnReadable(job: Job, r: nat, n: nat)
    requires n <= |job.inputs|
  {
    forall m | 0 <= m < n :: SliceReadable(MapSlice(job, m, r))
  }

  /** A worker past a file has read it. */
  ghost predicate HasRead(job: Job, worker: Worker) {
    match worker
    case Reading(task, _, next, _) => next <= |job.inputs| && ColumnReadable(job, task, next)
    case Reduced(task) => ColumnReadable(job, task, |job.inputs|)
    case Writing(_, dest, _, _, after) =>
      && (dest.Output? ==> ColumnReadable(job, dest.r, |job.inputs|))
      && (after.Reduced? ==> ColumnReadable(job, after.task, |job.inputs|))
      && (after.Mapping? || after.Reduced?)
    case _ => true
  }

  /** An output is only written once everything for it has been read. */
  ghost predicate ReadFirst(job: Job, s: System) {
    && (forall w | w in s.workers :: HasRead(job, s.workers[w]))
    && forall f | f in s.files && f.Output? :: ColumnReadable(job, f.r, |job.inputs|)
  }

  /** One more slice is read. */
  lemma {:induction false} ColumnNext(job: Job, r: nat, m: nat)
    requires m < |job.inputs| && ColumnReadable(job, r, m) && SliceReadable(MapSlice(job, m, r))
    ensures ColumnReadable(job, r, m + 1)
  {
  }

  lemma {:induction false} ReadHasRead(job: Job, files: Files, w: int, worker: Worker)
    requires FilesOk(job, files) && worker.Reading? && worker.next < worker.count
    requires WorkerOk(job, files, w, worker) && HasRead(job, worker)
    ensures HasRead(job, AfterRead(files, worker))
  {
    var m, r := worker.next, worker.task;
    if ReadFile(files, Intermediate(m, r)).Some? {
      SliceReadsIff(job, files, m, r);
      ColumnNext(job, r, m);
    }
  }

  lemma {:induction false} OpenHasRead(job: Job, files: Files, w: int, worker: Worker, sorted: seq<KeyValue>)
    requires worker.Mapping? || (worker.Reading? && worker.next == worker.count)
    requires WorkerOk(job, files, w, worker) && HasRead(job, worker)
    ensures HasRead(job, Opened(job, w, worker, sorted)) && Opened(job, w, worker, sorted).Writing?
    ensures !Opened(job, w, worker, sorted).temp.Output?
  {
  }

  lemma {:induction false} PublishHasRead(job: Job, files: Files, w: int, worker: Worker)
    requires worker.Writing? && WorkerOk(job, files, w, worker) && HasRead(job, worker)
    ensures HasRead(job, worker.after) && !worker.temp.Output?
    ensures worker.dest.Output? ==> ColumnReadable(job, worker.dest.r, |job.inputs|)
  {
  }

  /** A worker moves, and an output that it adds has been read for. */
  lemma {:induction false} WorkerReadsFirst(job: Job, s: System, s': System, w: int)
    requires ReadFirst(job, s) && w in s'.workers && s'.workers == s.workers[w := s'.workers[w]]
    requires HasRead(job, s'.workers[w])
    requires forall f | f in s'.files && f.Output? :: f in s.files || ColumnReadable(job, f.r, |job.inputs|)
    ensures ReadFirst(job, s')
  {
  }

  lemma {:induction false} StepReadsFirst(job: Job, s: System, step: Step)
    requires Inv(job, s) && ReadFirst(job, s) && Enabled(job, s, step)
    ensures ReadFirst(job, Next(job, s, step))
  {
    match step
    case Register => RegisterReadsFirst(job, s);
    case Ask(w, clock, heard) => AskReadsFirst(job, s, w, clock, heard);
    case Open(w, sorted) =>
      OpenHasRead(job, s.files, w, s.workers[w], sorted);
      WorkerReadsFirst(job, s, Next(job, s, step), w);
    case Write(w) => WriteReadsFirst(job, s, w);
    case Publish(w) => PublishReadsFirst(job, s, w);
    case Read(w) =>
      ReadHasRead(job, s.files, w, s.workers[w]);
      WorkerReadsFirst(job, s, Next(job, s, step), w);
    case Send(w) => WorkerReadsFirst(job, s, Next(job, s, step), w);
    case Receive(_) =>
    case Crash(w) => WorkerReadsFirst(job, s, Next(job, s, step), w);
  }

  lemma {:induction false} RegisterReadsFirst(job: Job, s: System)
    requires ReadFirst(job, s)
    ensures ReadFirst(job, Next(job, s, Register))
  {
    var (c, id) := C.DoRegister(s.coord);
    if id >= 0 {
      WorkerReadsFirst(job, s, Next(job, s, Register), id);
    }
  }

  lemma {:induction false} AskReadsFirst(job: Job, s: System, w: int, clock: C.Clock, heard: bool)
    requires ReadFirst(job, s) && Enabled(job, s, Ask(w, clock, heard))
    ensures ReadFirst(job, Next(job, s, Ask(w, clock, heard)))
  {
    var (c, answer) := C.DoGetTask(s.coord, w, clock);
    assert HasRead(job, Begin(job, answer));
    if heard {
      WorkerReadsFirst(job, s, Next(job, s, Ask(w, clock, heard)), w);
    }
  }

  lemma {:induction false} WriteReadsFirst(job: Job, s: System, w: int)
    requires Inv(job, s) && ReadFirst(job, s) && Enabled(job, s, Write(w))
    ensures ReadFirst(job, Next(job, s, Write(w)))
  {
    assert WorkerOk(job, s.files, w, s.workers[w]) && HasRead(job, s.workers[w]);
    PublishHasRead(job, s.files, w, s.workers[w]);
    WorkerReadsFirst(job, s, Next(job, s, Write(w)), w);
  }

  lemma {:induction false} PublishReadsFirst(job: Job, s: System, w: int)
    requires Inv(job, s) && ReadFirst(job, s) && Enabled(job, s, Publish(w))
    ensures ReadFirst(job, Next(job, s, Publish(w)))
  {
    assert WorkerOk(job, s.files, w, s.workers[w]) && HasRead(job, s.workers[w]);
    PublishHasRead(job, s.files, w, s.workers[w]);
    WorkerReadsFirst(job, s, Next(job, s, Publish(w)), w);
  }

  lemma {:induction false} ReadFirstAt(job: Job, ss: seq<System>, steps: seq<Step>, i: nat)
    requires IsRun(job, ss, steps) && i <= |steps|
    ensures Inv(job, ss[i]) && ReadFirst(job, ss[i])
  {
    InvAt(job, ss, steps, i);
    if i > 0 {
      ReadFirstAt(job, ss, steps, i - 1);
      StepReadsFirst(job, ss[i - 1], steps[i - 1]);
    }
  }

  lemma {:induction false} MappedBefore(job: Job, ss: seq<System>, steps: seq<Step>, i: nat)
    requires IsRun(job, ss, steps) && i <= |steps|
    ensures ss[i].coord.phase != C.Map ==> |job.inputs| > 0
  {
    if i > 0 {
      MappedBefore(job, ss, steps, i - 1);
      InvAt(job, ss, steps, i - 1);
    }
  }

  /** A finished job had something to do, and everything it emitted could be read. */
  lemma {:induction false} FinishedWasReadable(job: Job, ss: seq<System>, steps: seq<Step>, i: nat)
    requires IsRun(job, ss, steps) && i <= |steps| && ss[i].coord.phase == C.Exit
    ensures NotEmpty(job) && ReadableJob(job)
  {
    ReadFirstAt(job, ss, steps, i);
    NotEmptyWhenDone(job, ss, steps, i);
    MappedBefore(job, ss, steps, i);
    forall m, kv | 0 <= m < |job.inputs| && kv in MapOutput(job, m) ensures Readable(kv) {
      var r := SlotOf(job)(kv.key);
      assert Output(r) in ss[i].files;
      assert SliceReadable(MapSlice(job, m, r));
      BucketCount(MapOutput(job, m), SlotOf(job), r, kv);
      assert kv in multiset(MapOutput(job, m));
      assert kv in multiset(MapSlice(job, m, r));
    }
  }

  /**
   Exactly the jobs that have an input file and a reduce task and emit only readable pairs can finish: an emitted pair
   with fewer than two fields on a line stops every worker that reads it, for ever.
   */
  lemma {:induction false} FinishesIffReadable(job: Job)
    ensures (exists ss: seq<System>, steps: seq<Step> :: IsRun(job, ss, steps) && ss[|steps|].coord.phase == C.Exit)
              <==> NotEmpty(job) && ReadableJob(job)
  {
    forall ss: seq<System>, steps: seq<Step> | IsRun(job, ss, steps) && ss[|steps|].coord.phase == C.Exit
      ensures NotEmpty(job) && ReadableJob(job)
    {
      FinishedWasReadable(job, ss, steps, |steps|);
    }
    if NotEmpty(job) && ReadableJob(job) {
      assert IsRun(job, [Init(job)], []);
      var ss, steps := JobCanFinish(job, [Init(job)], []);
    }
  }

  /** A clean job is readable, so a clean job that has something to do can finish, with the sequential program's
      result. */
  lemma {:induction false} CleanJobCanFinish(job: Job, ss: seq<System>, steps: seq<Step>, sequential: seq<KeyValue>)
    returns (ss': seq<System>, steps': seq<Step>, outs: seq<seq<KeyValue>>)
    requires NotEmpty(job) && CleanJob(job) && IsRun(job, ss, steps) && OrderInsensitive(job.reducef)
    requires IsReduction(job.reducef, AllPairs(job), sequential)
    ensures IsRun(job, ss', steps') && ss <= ss' && steps <= steps' && ss'[|steps'|].coord.phase == C.Exit
    ensures OutputsHold(job, ss'[|steps'|].files, outs) && multiset(Concat(outs)) == multiset(sequential)
  {
    forall m, kv | 0 <= m < |job.inputs| && kv in MapOutput(job, m) ensures Readable(kv) {
      assert AllClean(MapOutput(job, m));
      CleanIsReadable(kv);
    }
    ss', steps' := JobCanFinish(job, ss, steps);
    outs := JobEqualsSequential(job, ss', steps', |steps'|, sequential);
  }
}
