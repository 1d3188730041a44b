/**
 A whole MapReduce job: the coordinator, workers that stop at any point, reports that come
 late or twice, and a file store with atomic rename (src/mr/coordinator.go,
 src/mr/worker.go). When the coordinator says the job is done, the output files together
 hold exactly what the sequential program writes.
 */
module MrJob {
  import opened Basics
  import opened MrRecords
  import opened MrText
  import opened MrGrouping
  import C = MrCoordinator

  // ---------------------------------------------------------------- the system

  datatype Job = Job(inputs: seq<string>, read: string -> string, mapf: Mapper, reducef: Reducer,
    hash: string -> nat, numReduce: nat)

  /** The names the workers write; those of temporary files carry the worker's id. */
  datatype File =
    | Intermediate(m: nat, r: nat)
    | IntermediateTemp(m: nat, r: nat, w: int)
    | Output(r: nat)
    | OutputTemp(r: nat, w: int)

  /** Where a worker stands. */
  datatype Worker =
    | Idle
    | Mapping(task: nat, slices: seq<seq<KeyValue>>, next: nat)
    | Reading(task: nat, count: nat, next: nat, kvs: seq<KeyValue>)
    | Reduced(task: nat)
    | Writing(temp: File, dest: File, records: seq<KeyValue>, written: nat, after: Worker)
    | Dead

  type Files = map<File, string>

  datatype System = System(coord: C.Coordinator, files: Files, workers: map<int, Worker>, reports: set<C.Call>)

  /** One atomic piece of work. The sort that a worker runs is any sort of its slice. */
  datatype Step =
    | Register
    | Ask(w: int, clock: C.Clock, heard: bool)
    | Open(w: int, sorted: seq<KeyValue>)
    | Write(w: int)
    | Publish(w: int)
    | Read(w: int)
    | Send(w: int)
    | Receive(report: C.Call)
    | Crash(w: int)

  function MapOutput(job: Job, m: nat): seq<KeyValue>
    requires m < |job.inputs|
  {
    job.mapf(job.inputs[m], job.read(job.inputs[m]))
  }

  function Slices(kva: seq<KeyValue>, hash: string -> nat, n: nat): seq<seq<KeyValue>> {
    seq(n, r requires 0 <= r < n => Bucket(kva, Slots(hash, n), r))
  }

  /** What a worker does with an answer to its request. Dividing by no slices stops it. */
  function Begin(job: Job, answer: C.Answer): Worker {
    match answer
    case Wait => Idle
    case AllDone => Dead
    case Task(phase, id, n) =>
      if phase == C.Reduce then Reading(id, n, 0, [])
      else if id >= |job.inputs| || (n == 0 && MapOutput(job, id) != []) then Dead
      else Mapping(id, Slices(MapOutput(job, id), job.hash, n), 0)
  }

  function Init(job: Job): System {
    System(C.NewCoordinator(|job.inputs|, job.numReduce), map[], map[], {})
  }

  predicate Enabled(job: Job, s: System, step: Step) {
    match step
    case Register => true
    case Ask(w, _, heard) => heard ==> w in s.workers && s.workers[w].Idle?
    case Open(w, sorted) =>
      && w in s.workers
      && match s.workers[w] {
           case Mapping(_, slices, next) => next < |slices| && IsSortOf(sorted, slices[next])
           case Reading(_, count, next, kvs) => next == count && IsSortOf(sorted, kvs)
           case _ => false
         }
    case Write(w) =>
      w in s.workers && s.workers[w].Writing? && s.workers[w].written < |s.workers[w].records| &&
        s.workers[w].temp in s.files
    case Publish(w) =>
      w in s.workers && s.workers[w].Writing? && s.workers[w].written == |s.workers[w].records| &&
        s.workers[w].temp in s.files
    case Read(w) => w in s.workers && s.workers[w].Reading? && s.workers[w].next < s.workers[w].count
    case Send(w) =>
      && w in s.workers
      && match s.workers[w] {
           case Mapping(_, slices, next) => next == |slices|
           case Reduced(_) => true
           case _ => false
         }
    case Receive(report) => report in s.reports && report.Report? && InRange(s.coord, report)
    case Crash(w) => w in s.workers
  }

  predicate InRange(c: C.Coordinator, report: C.Call) {
    report.Report? ==> report.phase == c.phase ==> report.id < |c.tasks|
  }

  /** The worker after it opened the temporary file of its next slice, or of its output. */
  function Opened(job: Job, w: int, worker: Worker, sorted: seq<KeyValue>): Worker {
    match worker
    case Mapping(task, slices, next) =>
      Writing(IntermediateTemp(task, next, w), Intermediate(task, next), sorted, 0, Mapping(task, slices, next + 1))
    case Reading(task, _, _, _) =>
      Writing(OutputTemp(task, w), Output(task), Reduction(sorted, job.reducef, 0), 0, Reduced(task))
    case _ => worker
  }

  /** A file that was missing or did not parse stops the worker. */
  function AfterParse(worker: Worker, parsed: Option<seq<KeyValue>>): Worker
    requires worker.Reading?
  {
    match parsed
    case None => Dead
    case Some(kvs) => worker.(next := worker.next + 1, kvs := worker.kvs + kvs)
  }

  /** What an intermediate file gives: nothing if it is missing or has a line of one field. */
  function ReadFile(files: Files, f: File): Option<seq<KeyValue>> {
    if f !in files then None else Parse(files[f])
  }

  /** Reading one intermediate file. */
  function AfterRead(files: Files, worker: Worker): Worker
    requires worker.Reading?
  {
    AfterParse(worker, ReadFile(files, Intermediate(worker.next, worker.task)))
  }

  function ReportBy(w: int, worker: Worker): C.Call
    requires worker.Mapping? || worker.Reduced?
  {
    C.Report(if worker.Mapping? then C.Map else C.Reduce, worker.task, w)
  }

  /** os.Rename */
  function Renamed(files: Files, temp: File, dest: File): Files
    requires temp in files
  {
    (files - {temp})[dest := files[temp]]
  }

  function Next(job: Job, s: System, step: Step): System
    requires Enabled(job, s, step)
  {
    match step
    case Register =>
      var (c, id) := C.DoRegister(s.coord);
      s.(coord := c, workers := if id >= 0 then s.workers[id := Idle] else s.workers)
    case Ask(w, clock, heard) =>
      var (c, answer) := C.DoGetTask(s.coord, w, clock);
      s.(coord := c, workers := if heard then s.workers[w := Begin(job, answer)] else s.workers)
    case Open(w, sorted) =>
      var worker := Opened(job, w, s.workers[w], sorted);
      s.(files := s.files[worker.temp := ""], workers := s.workers[w := worker])
    case Write(w) =>
      var worker := s.workers[w];
      s.(files := s.files[worker.temp := s.files[worker.temp] + Line(worker.records[worker.written])],
         workers := s.workers[w := worker.(written := worker.written + 1)])
    case Publish(w) =>
      var worker := s.workers[w];
      s.(files := Renamed(s.files, worker.temp, worker.dest), workers := s.workers[w := worker.after])
    case Read(w) =>
      s.(workers := s.workers[w := AfterRead(s.files, s.workers[w])])
    case Send(w) =>
      s.(workers := s.workers[w := Idle], reports := s.reports + {ReportBy(w, s.workers[w])})
    case Receive(report) =>
      s.(coord := C.DoReport(s.coord, report.phase, report.id, report.worker))
    case Crash(w) =>
      s.(workers := s.workers[w := Dead])
  }

  ghost predicate IsRun(job: Job, ss: seq<System>, steps: seq<Step>) {
    && |ss| == |steps| + 1
    && ss[0] == Init(job)
    && forall i | 0 <= i < |steps| :: Enabled(job, ss[i], steps[i]) && ss[i + 1] == Next(job, ss[i], steps[i])
  }

  // ---------------------------------------------------------------- what every state keeps

  function SlotOf(job: Job): string -> nat {
    if job.numReduce == 0 then (_: string) => 0 else Slots(job.hash, job.numReduce)
  }

  function MapSlice(job: Job, m: nat, r: nat): seq<KeyValue>
    requires m < |job.inputs|
  {
    Bucket(MapOutput(job, m), SlotOf(job), r)
  }

  /** What the first n maps send to slice r. */
  function Shuffled(job: Job, n: nat, r: nat): seq<KeyValue>
    requires n <= |job.inputs|
  {
    Bucket(Emitted(job.inputs, job.read, job.mapf, n), SlotOf(job), r)
  }

  /** Every emitted key and value is a nonempty word without white space. */
  ghost predicate CleanJob(job: Job) {
    forall m | 0 <= m < |job.inputs| :: AllClean(MapOutput(job, m))
  }

  predicate CleanWords(vs: seq<string>) {
    forall i | 0 <= i < |vs| :: Clean(vs[i])
  }

  /** What a reduce worker can write, whatever was emitted: a clean key with the reduction of clean words. */
  ghost predicate Honest(reducef: Reducer, rec: KeyValue) {
    Clean(rec.key) && exists vs :: CleanWords(vs) && rec.value == reducef(rec.key, vs)
  }

  ghost predicate SliceRecords(job: Job, m: nat, r: nat, records: seq<KeyValue>) {
    m < |job.inputs| && r < job.numReduce && multiset(records) == multiset(MapSlice(job, m, r))
  }

  ghost predicate OutputRecords(job: Job, r: nat, records: seq<KeyValue>) {
    && r < job.numReduce
    && (forall i | 0 <= i < |records| :: Honest(job.reducef, records[i]))
    && (CleanJob(job) ==> IsReduction(job.reducef, multiset(Shuffled(job, |job.inputs|, r)), records))
  }

  /** A published file is complete and right, whoever wrote it; an output is, if the job is clean. */
  ghost predicate FileOk(job: Job, f: File, text: string) {
    match f
    case Intermediate(m, r) => exists records :: SliceRecords(job, m, r, records) && text == Text(records)
    case Output(r) => exists records :: OutputRecords(job, r, records) && text == Text(records)
    case _ => true
  }

  ghost predicate FilesOk(job: Job, files: Files) {
    forall f {:trigger FileOk(job, f, files[f])} | f in files :: FileOk(job, f, files[f])
  }

  predicate MapPublished(job: Job, files: Files, m: nat) {
    forall r | 0 <= r < job.numReduce :: Intermediate(m, r) in files
  }

  predicate AllPublished(job: Job, files: Files) {
    forall m | 0 <= m < |job.inputs| :: MapPublished(job, files, m)
  }

  ghost predicate MappingOk(job: Job, files: Files, task: nat, slices: seq<seq<KeyValue>>, next: nat) {
    && task < |job.inputs| && |slices| == job.numReduce && next <= |slices|
    && (forall r | 0 <= r < |slices| :: slices[r] == MapSlice(job, task, r))
    && (forall r | 0 <= r < next :: Intermediate(task, r) in files)
  }

  ghost predicate ReadingOk(job: Job, files: Files, task: nat, count: nat, next: nat, kvs: seq<KeyValue>) {
    && task < job.numReduce && count == |job.inputs| && next <= count
    && AllPublished(job, files)
    && AllClean(kvs)
    && (CleanJob(job) ==> multiset(kvs) == multiset(Shuffled(job, next, task)))
  }

  ghost predicate TargetOk(job: Job, files: Files, w: int, worker: Worker)
    requires worker.Writing?
  {
    match worker.dest
    case Intermediate(m, r) =>
      && worker.temp == IntermediateTemp(m, r, w)
      && worker.after.Mapping? && worker.after.task == m && worker.after.next == r + 1 && r < |worker.after.slices|
      && MappingOk(job, files, m, worker.after.slices, r)
      && SliceRecords(job, m, r, worker.records)
    case Output(r) =>
      worker.temp == OutputTemp(r, w) && worker.after == Reduced(r) && OutputRecords(job, r, worker.records)
    case _ => false
  }

  ghost predicate WorkerOk(job: Job, files: Files, w: int, worker: Worker) {
    match worker
    case Idle => true
    case Dead => true
    case Mapping(task, slices, next) => MappingOk(job, files, task, slices, next)
    case Reading(task, count, next, kvs) => ReadingOk(job, files, task, count, next, kvs)
    case Reduced(task) => task < job.numReduce && Output(task) in files
    case Writing(temp, _, records, written, _) =>
      && written <= |records| && temp in files && files[temp] == Text(records[..written])
      && TargetOk(job, files, w, worker)
  }

  ghost predicate TaskPublished(job: Job, files: Files, phase: C.Phase, id: nat) {
    match phase
    case Map => id < |job.inputs| && MapPublished(job, files, id)
    case Reduce => id < job.numReduce && Output(id) in files
    case Exit => false
  }

  ghost predicate ReportOk(job: Job, files: Files, report: C.Call) {
    report.Report? && TaskPublished(job, files, report.phase, report.id)
  }

  ghost predicate CoordOk(job: Job, files: Files, c: C.Coordinator) {
    && C.WellFormed(c) && c.numMap == |job.inputs| && c.numReduce == job.numReduce
    && (c.phase != C.Map ==> AllPublished(job, files))
    && (c.phase != C.Exit ==> forall i | 0 <= i < |c.tasks| && c.tasks[i].state == C.Done ::
          TaskPublished(job, files, c.phase, i))
    && (c.phase == C.Exit ==> forall r | 0 <= r < job.numReduce :: Output(r) in files)
  }

  ghost predicate Inv(job: Job, s: System) {
    && CoordOk(job, s.files, s.coord)
    && FilesOk(job, s.files)
    && (forall w | w in s.workers :: WorkerOk(job, s.files, w, s.workers[w]))
    && (forall report | report in s.reports :: ReportOk(job, s.files, report))
  }

  // ---------------------------------------------------------------- files only come

  predicate Final(f: File) {
    f.Intermediate? || f.Output?
  }

  ghost predicate Kept(files: Files, files': Files) {
    forall f | f in files && Final(f) :: f in files'
  }

  /** Nobody else touches the temporary file of w. */
  ghost predicate TempKept(files: Files, files': Files, w: int) {
    forall f | f in files && !Final(f) && f.w == w :: f in files' && files'[f] == files[f]
  }

  /** Nobody's temporary file but that of w is touched. */
  ghost predicate OthersKept(files: Files, files': Files, w: int) {
    forall f | f in files && !Final(f) && f.w != w :: f in files' && files'[f] == files[f]
  }

  lemma {:induction false} PublishedStays(job: Job, files: Files, files': Files)
    requires Kept(files, files') && AllPublished(job, files)
    ensures AllPublished(job, files')
  {
    forall m | 0 <= m < |job.inputs| ensures MapPublished(job, files', m) {
      assert MapPublished(job, files, m);
    }
  }

  lemma {:induction false} WorkerStays(job: Job, files: Files, files': Files, w: int, worker: Worker)
    requires Kept(files, files') && TempKept(files, files', w) && WorkerOk(job, files, w, worker)
    ensures WorkerOk(job, files', w, worker)
  {
    if worker.Reading? {
      PublishedStays(job, files, files');
    }
  }

  lemma {:induction false} ReportStays(job: Job, files: Files, files': Files, report: C.Call)
    requires Kept(files, files') && ReportOk(job, files, report)
    ensures ReportOk(job, files', report)
  {
  }

  lemma {:induction false} CoordStays(job: Job, files: Files, files': Files, c: C.Coordinator)
    requires Kept(files, files') && CoordOk(job, files, c)
    ensures CoordOk(job, files', c)
  {
    if c.phase != C.Map {
      PublishedStays(job, files, files');
    }
    assert forall p, id | TaskPublished(job, files, p, id) :: TaskPublished(job, files', p, id);
  }

  /** A worker moves and changes no file but its own temporary one and one it publishes. */
  lemma {:induction false} WorkerMoves(job: Job, s: System, s': System, w: int)
    requires Inv(job, s) && w in s'.workers && s'.workers == s.workers[w := s'.workers[w]]
    requires s'.coord == s.coord && s'.reports == s.reports && Kept(s.files, s'.files)
    requires OthersKept(s.files, s'.files, w)
    requires forall f | f in s'.files :: (f in s.files && s'.files[f] == s.files[f]) || FileOk(job, f, s'.files[f])
    requires WorkerOk(job, s'.files, w, s'.workers[w])
    ensures Inv(job, s')
  {
    CoordStays(job, s.files, s'.files, s.coord);
    forall v | v in s'.workers ensures WorkerOk(job, s'.files, v, s'.workers[v]) {
      if v != w {
        assert TempKept(s.files, s'.files, v);
        WorkerStays(job, s.files, s'.files, v, s.workers[v]);
      }
    }
    forall report | report in s'.reports ensures ReportOk(job, s'.files, report) {
      ReportStays(job, s.files, s'.files, report);
    }
  }

  // ---------------------------------------------------------------- the map and reduce work

  lemma {:induction false} BeginOk(job: Job, files: Files, w: int, c: C.Coordinator, clock: C.Clock)
    requires CoordOk(job, files, c)
    ensures WorkerOk(job, files, w, Begin(job, C.DoGetTask(c, w, clock).1))
  {
  }

  lemma {:induction false} OpenSliceOk(job: Job, files: Files, w: int, worker: Worker, sorted: seq<KeyValue>)
    requires worker.Mapping? && worker.next < |worker.slices| && IsSortOf(sorted, worker.slices[worker.next])
    requires WorkerOk(job, files, w, worker)
    ensures var o := Opened(job, w, worker, sorted); WorkerOk(job, files[o.temp := ""], w, o)
  {
  }

  lemma {:induction false} OpenOutputOk(job: Job, files: Files, w: int, worker: Worker, sorted: seq<KeyValue>)
    requires worker.Reading? && worker.next == worker.count && IsSortOf(sorted, worker.kvs)
    requires WorkerOk(job, files, w, worker)
    ensures var o := Opened(job, w, worker, sorted); WorkerOk(job, files[o.temp := ""], w, o)
  {
    ReductionReduces(sorted, job.reducef, 0);
    assert sorted[0..] == sorted;
    SortKeepsClean(sorted, worker.kvs);
    ReductionHonest(sorted, job.reducef, 0);
  }

  lemma {:induction false} SortKeepsClean(sorted: seq<KeyValue>, kvs: seq<KeyValue>)
    requires multiset(sorted) == multiset(kvs) && AllClean(kvs)
    ensures AllClean(sorted)
  {
    forall i | 0 <= i < |sorted| ensures CleanPair(sorted[i]) {
      assert sorted[i] in multiset(kvs);
    }
  }

  lemma {:induction false} ReductionHonest(kvs: seq<KeyValue>, reducef: Reducer, i: nat)
    requires AllClean(kvs) && i <= |kvs|
    ensures forall k | 0 <= k < |Reduction(kvs, reducef, i)| :: Honest(reducef, Reduction(kvs, reducef, i)[k])
    decreases |kvs| - i
  {
    if i < |kvs| {
      var j := RunEnd(kvs, i, i + 1);
      ReductionHonest(kvs, reducef, j);
      var vs := Values(kvs, i, j);
      assert CleanPair(kvs[i]);
      forall k | 0 <= k < |vs| ensures Clean(vs[k]) {
        assert CleanPair(kvs[i + k]);
      }
      assert CleanWords(vs);
      assert Honest(reducef, Group(kvs, reducef, i, j));
    }
  }

  /** Writing a temporary file touches no published file and no other worker's. */
  lemma {:induction false} TempFrame(files: Files, temp: File, text: string)
    requires !Final(temp)
    ensures Kept(files, files[temp := text])
    ensures OthersKept(files, files[temp := text], temp.w)
  {
  }

  lemma {:induction false} OpenKeeps(job: Job, s: System, w: int, sorted: seq<KeyValue>)
    requires Inv(job, s) && Enabled(job, s, Open(w, sorted))
    ensures Inv(job, Next(job, s, Open(w, sorted)))
  {
    if s.workers[w].Mapping? {
      OpenSliceOk(job, s.files, w, s.workers[w], sorted);
    } else {
      OpenOutputOk(job, s.files, w, s.workers[w], sorted);
    }
    TempFrame(s.files, Opened(job, w, s.workers[w], sorted).temp, "");
    WorkerMoves(job, s, Next(job, s, Open(w, sorted)), w);
  }

  lemma {:induction false} WriteOk(job: Job, files: Files, w: int, worker: Worker)
    requires worker.Writing? && worker.written < |worker.records| && WorkerOk(job, files, w, worker)
    ensures WorkerOk(job, files[worker.temp := files[worker.temp] + Line(worker.records[worker.written])], w,
                     worker.(written := worker.written + 1))
  {
    var n := worker.written;
    TextAppend(worker.records[..n], worker.records[n]);
    assert worker.records[..n + 1] == worker.records[..n] + [worker.records[n]];
  }

  lemma {:induction false} WriteKeeps(job: Job, s: System, w: int)
    requires Inv(job, s) && Enabled(job, s, Write(w))
    ensures Inv(job, Next(job, s, Write(w)))
  {
    var worker := s.workers[w];
    assert WorkerOk(job, s.files, w, worker);
    var s' := Next(job, s, Write(w));
    WriteOk(job, s.files, w, worker);
    TempFrame(s.files, worker.temp, s.files[worker.temp] + Line(worker.records[worker.written]));
    WorkerMoves(job, s, s', w);
  }

  lemma {:induction false} PublishOk(job: Job, files: Files, w: int, worker: Worker)
    requires worker.Writing? && worker.written == |worker.records| && WorkerOk(job, files, w, worker)
    ensures FileOk(job, worker.dest, files[worker.temp])
    ensures WorkerOk(job, Renamed(files, worker.temp, worker.dest), w, worker.after)
  {
    assert worker.records[..worker.written] == worker.records;
  }

  lemma {:induction false} RenameFrame(files: Files, temp: File, dest: File)
    requires temp in files && !Final(temp) && Final(dest)
    ensures Kept(files, Renamed(files, temp, dest))
    ensures OthersKept(files, Renamed(files, temp, dest), temp.w)
    ensures forall f | f in Renamed(files, temp, dest) && f != dest ::
              f in files && Renamed(files, temp, dest)[f] == files[f]
  {
  }

  lemma {:induction false} PublishKeeps(job: Job, s: System, w: int)
    requires Inv(job, s) && Enabled(job, s, Publish(w))
    ensures Inv(job, Next(job, s, Publish(w)))
  {
    var worker := s.workers[w];
    assert WorkerOk(job, s.files, w, worker);
    PublishOk(job, s.files, w, worker);
    RenameFrame(s.files, worker.temp, worker.dest);
    WorkerMoves(job, s, Next(job, s, Publish(w)), w);
  }

  lemma {:induction false} SliceClean(job: Job, m: nat, r: nat, records: seq<KeyValue>)
    requires CleanJob(job) && SliceRecords(job, m, r, records)
    ensures AllClean(records)
  {
    forall i | 0 <= i < |records| ensures CleanPair(records[i]) {
      var kv := records[i];
      assert kv in multiset(records);
      BucketCount(MapOutput(job, m), SlotOf(job), r, kv);
      assert kv in MapOutput(job, m);
    }
  }

  /** In a clean job a published slice reads back as the pairs of that slice. */
  lemma {:induction false} SliceReads(job: Job, files: Files, m: nat, r: nat)
    requires CleanJob(job) && Intermediate(m, r) in files && FileOk(job, Intermediate(m, r), files[Intermediate(m, r)])
    ensures m < |job.inputs| && Parse(files[Intermediate(m, r)]).Some?
    ensures multiset(Parse(files[Intermediate(m, r)]).value) == multiset(MapSlice(job, m, r))
  {
    var records :| SliceRecords(job, m, r, records) && files[Intermediate(m, r)] == Text(records);
    SliceClean(job, m, r, records);
    CleanRoundTrip(records);
  }

  lemma {:induction false} ShuffledNext(job: Job, n: nat, r: nat)
    requires n < |job.inputs|
    ensures multiset(Shuffled(job, n + 1, r)) == multiset(Shuffled(job, n, r)) + multiset(MapSlice(job, n, r))
  {
    BucketConcat(Emitted(job.inputs, job.read, job.mapf, n), MapOutput(job, n), SlotOf(job), r);
  }

  /** What is read from a file is clean, whatever the file holds. */
  lemma {:induction false} ReadIsClean(kvs: seq<KeyValue>, text: string)
    requires AllClean(kvs) && Parse(text).Some?
    ensures AllClean(kvs + Parse(text).value)
  {
    ParsedClean(FieldsFunc(text, IsLineEnd));
  }

  /** In a clean job the next file is there and brings exactly the pairs of its slice. */
  lemma {:induction false} CleanReadOk(job: Job, files: Files, task: nat, count: nat, next: nat, kvs: seq<KeyValue>)
    requires CleanJob(job) && next < count && ReadingOk(job, files, task, count, next, kvs)
    requires FilesOk(job, files)
    ensures Intermediate(next, task) in files && Parse(files[Intermediate(next, task)]).Some?
    ensures multiset(kvs + Parse(files[Intermediate(next, task)]).value) == multiset(Shuffled(job, next + 1, task))
  {
    assert MapPublished(job, files, next);
    SliceReads(job, files, next, task);
    ShuffledNext(job, next, task);
  }

  lemma {:induction false} ReadNextOk(job: Job, files: Files, task: nat, count: nat, next: nat, kvs: seq<KeyValue>,
                                      text: string)
    requires next < count && ReadingOk(job, files, task, count, next, kvs)
    requires Intermediate(next, task) in files && files[Intermediate(next, task)] == text && Parse(text).Some?
    requires FilesOk(job, files)
    ensures ReadingOk(job, files, task, count, next + 1, kvs + Parse(text).value)
  {
    ReadIsClean(kvs, text);
    if CleanJob(job) {
      CleanReadOk(job, files, task, count, next, kvs);
    }
  }

  lemma {:induction false} ParsedOk(job: Job, files: Files, w: int, worker: Worker, parsed: Option<seq<KeyValue>>)
    requires worker.Reading?
    requires parsed.Some? ==>
               ReadingOk(job, files, worker.task, worker.count, worker.next + 1, worker.kvs + parsed.value)
    ensures WorkerOk(job, files, w, AfterParse(worker, parsed))
  {
  }

  lemma {:induction false} ReadOk(job: Job, files: Files, w: int, worker: Worker)
    requires worker.Reading? && worker.next < worker.count
    requires ReadingOk(job, files, worker.task, worker.count, worker.next, worker.kvs) && FilesOk(job, files)
    ensures WorkerOk(job, files, w, AfterRead(files, worker))
  {
    var f := Intermediate(worker.next, worker.task);
    var parsed := ReadFile(files, f);
    if parsed.Some? {
      ReadNextOk(job, files, worker.task, worker.count, worker.next, worker.kvs, files[f]);
    }
    ParsedOk(job, files, w, worker, parsed);
  }

  lemma {:induction false} ReadKeeps(job: Job, s: System, w: int)
    requires Inv(job, s) && Enabled(job, s, Read(w))
    ensures Inv(job, Next(job, s, Read(w)))
  {
    ReadOk(job, s.files, w, s.workers[w]);
    WorkerMoves(job, s, Next(job, s, Read(w)), w);
  }

  // ---------------------------------------------------------------- the coordinator's steps

  lemma {:induction false} AskKeeps(job: Job, s: System, w: int, clock: C.Clock, heard: bool)
    requires Inv(job, s) && Enabled(job, s, Ask(w, clock, heard))
    ensures Inv(job, Next(job, s, Ask(w, clock, heard)))
  {
    BeginOk(job, s.files, w, s.coord, clock);
    assert CoordOk(job, s.files, C.DoGetTask(s.coord, w, clock).0);
  }

  lemma {:induction false} SendKeeps(job: Job, s: System, w: int)
    requires Inv(job, s) && Enabled(job, s, Send(w))
    ensures Inv(job, Next(job, s, Send(w)))
  {
    assert ReportOk(job, s.files, ReportBy(w, s.workers[w]));
  }

  lemma {:induction false} AdvanceOk(job: Job, files: Files, c: C.Coordinator)
    requires c.phase != C.Exit && |c.tasks| == (if c.phase == C.Map then c.numMap else c.numReduce)
    requires c.numMap == |job.inputs| && c.numReduce == job.numReduce
    requires c.phase != C.Map ==> AllPublished(job, files)
    requires forall i | 0 <= i < |c.tasks| && c.tasks[i].state == C.Done :: TaskPublished(job, files, c.phase, i)
    ensures CoordOk(job, files, C.Advance(c))
  {
    if C.AllDoneIn(c.tasks) {
      forall i | 0 <= i < |c.tasks| ensures TaskPublished(job, files, c.phase, i) {
        assert c.tasks[i].state == C.Done;
      }
      if c.phase == C.Map {
        forall m | 0 <= m < |job.inputs| ensures MapPublished(job, files, m) {
          assert TaskPublished(job, files, c.phase, m);
        }
      } else {
        forall r | 0 <= r < job.numReduce ensures Output(r) in files {
          assert TaskPublished(job, files, c.phase, r);
        }
      }
    }
  }

  lemma {:induction false} ReceiveKeeps(job: Job, s: System, report: C.Call)
    requires Inv(job, s) && Enabled(job, s, Receive(report))
    ensures Inv(job, Next(job, s, Receive(report)))
  {
    assert ReportOk(job, s.files, report);
    var c := s.coord;
    if C.Effective(c, report.phase, report.id) {
      AdvanceOk(job, s.files,
        c.(tasks := c.tasks[report.id := c.tasks[report.id].(state := C.Done, worker := report.worker)]));
    }
  }

  lemma {:induction false} StepKeepsInv(job: Job, s: System, step: Step)
    requires Inv(job, s) && Enabled(job, s, step)
    ensures Inv(job, Next(job, s, step))
  {
    match step
    case Register =>
    case Ask(w, clock, heard) => AskKeeps(job, s, w, clock, heard);
    case Open(w, sorted) => OpenKeeps(job, s, w, sorted);
    case Write(w) => WriteKeeps(job, s, w);
    case Publish(w) => PublishKeeps(job, s, w);
    case Read(w) => ReadKeeps(job, s, w);
    case Send(w) => SendKeeps(job, s, w);
    case Receive(report) => ReceiveKeeps(job, s, report);
    case Crash(w) => WorkerMoves(job, s, Next(job, s, step), w);
  }

  lemma {:induction false} InvAt(job: Job, ss: seq<System>, steps: seq<Step>, i: nat)
    requires IsRun(job, ss, steps) && i <= |steps|
    ensures Inv(job, ss[i])
  {
    if i > 0 {
      InvAt(job, ss, steps, i - 1);
      StepKeepsInv(job, ss[i - 1], steps[i - 1]);
    }
  }

  // ---------------------------------------------------------------- the results

  function Concat(outs: seq<seq<KeyValue>>): seq<KeyValue> {
    if outs == [] then [] else Concat(outs[..|outs| - 1]) + outs[|outs| - 1]
  }

  /** outs are the records in the output files, file by file. */
  ghost predicate OutputsHold(job: Job, files: Files, outs: seq<seq<KeyValue>>) {
    |outs| == job.numReduce && forall r | 0 <= r < |outs| :: Output(r) in files && files[Output(r)] == Text(outs[r])
  }

  /** The pairs of the slices below n. */
  function Below(kvs: seq<KeyValue>, slot: string -> nat, n: nat): seq<KeyValue> {
    if kvs == [] then []
    else Below(kvs[..|kvs| - 1], slot, n) + if slot(kvs[|kvs| - 1].key) < n then [kvs[|kvs| - 1]] else []
  }

  lemma {:induction false} BelowLast(front: seq<KeyValue>, last: KeyValue, slot: string -> nat, n: nat, kv: KeyValue)
    ensures multiset(Below(front + [last], slot, n))[kv] ==
            multiset(Below(front, slot, n))[kv] + if slot(last.key) < n && last == kv then 1 else 0
  {
    assert (front + [last])[..|front|] == front;
    if slot(last.key) < n {
      assert Below(front + [last], slot, n) == Below(front, slot, n) + [last];
      AppendCount(Below(front, slot, n), last, kv);
    }
  }

  lemma {:induction false} BelowOneMore(front: seq<KeyValue>, last: KeyValue, slot: string -> nat, n: nat, kv: KeyValue)
    requires multiset(Below(front, slot, n))[kv] == if slot(kv.key) < n then multiset(front)[kv] else 0
    ensures multiset(Below(front + [last], slot, n))[kv] == if slot(kv.key) < n then multiset(front + [last])[kv] else 0
  {
    BelowLast(front, last, slot, n, kv);
    AppendCount(front, last, kv);
  }

  lemma {:induction false} BelowCount(kvs: seq<KeyValue>, slot: string -> nat, n: nat, kv: KeyValue)
    ensures multiset(Below(kvs, slot, n))[kv] == if slot(kv.key) < n then multiset(kvs)[kv] else 0
  {
    if kvs != [] {
      var front, last := kvs[..|kvs| - 1], kvs[|kvs| - 1];
      BelowCount(front, slot, n, kv);
      BelowOneMore(front, last, slot, n, kv);
      assert kvs == front + [last];
    }
  }

  lemma {:induction false} BelowGrows(kvs: seq<KeyValue>, slot: string -> nat, n: nat)
    ensures multiset(Below(kvs, slot, n + 1)) == multiset(Below(kvs, slot, n)) + multiset(Bucket(kvs, slot, n))
  {
    forall kv
      ensures multiset(Below(kvs, slot, n + 1))[kv] ==
                (multiset(Below(kvs, slot, n)) + multiset(Bucket(kvs, slot, n)))[kv]
    {
      BelowCount(kvs, slot, n, kv);
      BelowCount(kvs, slot, n + 1, kv);
      BucketCount(kvs, slot, n, kv);
    }
  }

  lemma {:induction false} AllBelow(kvs: seq<KeyValue>, slot: string -> nat, n: nat)
    requires forall k :: slot(k) < n
    ensures multiset(Below(kvs, slot, n)) == multiset(kvs)
  {
    forall kv ensures multiset(Below(kvs, slot, n))[kv] == multiset(kvs)[kv] {
      BelowCount(kvs, slot, n, kv);
    }
  }

  lemma {:induction false} SlicesApart(kvs: seq<KeyValue>, slot: string -> nat, n: nat)
    ensures NoSharedKey(multiset(Below(kvs, slot, n)), multiset(Bucket(kvs, slot, n)))
  {
    forall x | x in multiset(Below(kvs, slot, n)) ensures slot(x.key) < n {
      BelowCount(kvs, slot, n, x);
    }
    forall y | y in multiset(Bucket(kvs, slot, n)) ensures slot(y.key) == n {
      BucketCount(kvs, slot, n, y);
    }
  }

  lemma {:induction false} NothingBelow(reducef: Reducer, kvs: seq<KeyValue>, slot: string -> nat)
    ensures IsReduction(reducef, multiset(Below(kvs, slot, 0)), [])
  {
    forall kv ensures multiset(Below(kvs, slot, 0))[kv] == 0 {
      BelowCount(kvs, slot, 0, kv);
    }
  }

  lemma {:induction false} SliceJoins(reducef: Reducer, kvs: seq<KeyValue>, slot: string -> nat, n: nat,
                                      a: seq<KeyValue>, b: seq<KeyValue>)
    requires IsReduction(reducef, multiset(Below(kvs, slot, n)), a)
    requires IsReduction(reducef, multiset(Bucket(kvs, slot, n)), b)
    ensures IsReduction(reducef, multiset(Below(kvs, slot, n + 1)), a + b)
  {
    SlicesApart(kvs, slot, n);
    BelowGrows(kvs, slot, n);
    ReductionsMerge(reducef, multiset(Below(kvs, slot, n)), multiset(Bucket(kvs, slot, n)), a, b);
  }

  /** Reductions of the single slices make up a reduction of everything below. */
  lemma {:induction false} SlicesMerge(reducef: Reducer, kvs: seq<KeyValue>, slot: string -> nat,
                                       outs: seq<seq<KeyValue>>)
    requires forall r | 0 <= r < |outs| :: IsReduction(reducef, multiset(Bucket(kvs, slot, r)), outs[r])
    ensures IsReduction(reducef, multiset(Below(kvs, slot, |outs|)), Concat(outs))
  {
    if outs == [] {
      NothingBelow(reducef, kvs, slot);
    } else {
      var n := |outs| - 1;
      SlicesMerge(reducef, kvs, slot, outs[..n]);
      SliceJoins(reducef, kvs, slot, n, Concat(outs[..n]), outs[n]);
    }
  }

  lemma {:induction false} OutputAt(job: Job, r: nat, text: string) returns (records: seq<KeyValue>)
    requires FileOk(job, Output(r), text)
    ensures text == Text(records) && OutputRecords(job, r, records)
  {
    records :| OutputRecords(job, r, records) && text == Text(records);
  }

  /** out holds the records of output file r. */
  ghost predicate Collected(job: Job, files: Files, r: nat, out: seq<KeyValue>) {
    Output(r) in files && files[Output(r)] == Text(out) && OutputRecords(job, r, out)
  }

  lemma {:induction false} CollectOne(job: Job, files: Files, r: nat) returns (out: seq<KeyValue>)
    requires Output(r) in files && FileOk(job, Output(r), files[Output(r)])
    ensures Collected(job, files, r, out)
  {
    out := OutputAt(job, r, files[Output(r)]);
  }

  lemma {:induction false} CollectOutputs(job: Job, files: Files, n: nat) returns (outs: seq<seq<KeyValue>>)
    requires n <= job.numReduce
    requires FilesOk(job, files)
    requires forall r | 0 <= r < job.numReduce :: Output(r) in files
    ensures |outs| == n
    ensures forall r {:trigger Collected(job, files, r, outs[r])} | 0 <= r < n :: Collected(job, files, r, outs[r])
  {
    if n == 0 {
      outs := [];
    } else {
      var front := CollectOutputs(job, files, n - 1);
      var last := CollectOne(job, files, n - 1);
      outs := front + [last];
      forall r | 0 <= r < n ensures Collected(job, files, r, outs[r]) {
        if r < n - 1 {
          assert Collected(job, files, r, front[r]);
        }
      }
    }
  }

  lemma {:induction false} OutputsWhenDone(job: Job, ss: seq<System>, steps: seq<Step>, i: nat)
    returns (outs: seq<seq<KeyValue>>)
    requires IsRun(job, ss, steps) && i <= |steps| && ss[i].coord.phase == C.Exit
    ensures OutputsHold(job, ss[i].files, outs) && |outs| > 0
    ensures forall r {:trigger OutputRecords(job, r, outs[r])} | 0 <= r < |outs| :: OutputRecords(job, r, outs[r])
  {
    InvAt(job, ss, steps, i);
    NotEmptyWhenDone(job, ss, steps, i);
    outs := CollectOutputs(job, ss[i].files, job.numReduce);
    forall r | 0 <= r < |outs|
      ensures Output(r) in ss[i].files && ss[i].files[Output(r)] == Text(outs[r]) && OutputRecords(job, r, outs[r])
    {
      assert Collected(job, ss[i].files, r, outs[r]);
    }
  }

  function AllPairs(job: Job): multiset<KeyValue> {
    multiset(Emitted(job.inputs, job.read, job.mapf, |job.inputs|))
  }

  /** When the coordinator is done, the output files exist and together are a reduction of all emitted pairs: every key
      once, in one file, with exactly its values. This needs nothing of the reduce function. */
  lemma {:induction false} DoneIsReduction(job: Job, ss: seq<System>, steps: seq<Step>, i: nat)
    returns (outs: seq<seq<KeyValue>>)
    requires CleanJob(job) && IsRun(job, ss, steps) && i <= |steps| && ss[i].coord.phase == C.Exit
    ensures OutputsHold(job, ss[i].files, outs)
    ensures IsReduction(job.reducef, AllPairs(job), Concat(outs))
  {
    outs := OutputsWhenDone(job, ss, steps, i);
    var all := Emitted(job.inputs, job.read, job.mapf, |job.inputs|);
    var slot := SlotOf(job);
    forall r | 0 <= r < |outs| ensures IsReduction(job.reducef, multiset(Bucket(all, slot, r)), outs[r]) {
      assert OutputRecords(job, r, outs[r]);
    }
    SlicesMerge(job.reducef, all, slot, outs);
    AllBelow(all, slot, job.numReduce);
  }

  /** A job without slices never ends. */
  lemma {:induction false} NotEmptyWhenDone(job: Job, ss: seq<System>, steps: seq<Step>, i: nat)
    requires IsRun(job, ss, steps) && i <= |steps|
    ensures ss[i].coord.phase == C.Exit ==> job.numReduce > 0
  {
    if i > 0 {
      NotEmptyWhenDone(job, ss, steps, i - 1);
      InvAt(job, ss, steps, i - 1);
    }
  }

  /** The job equals the sequential program: whatever the schedule of timeouts, reassignments, repeated reports and
      crashes, once the coordinator is done the records in the output files are those the sequential program writes. */
  lemma {:induction false} JobEqualsSequential(job: Job, ss: seq<System>, steps: seq<Step>, i: nat,
                                               sequential: seq<KeyValue>)
    returns (outs: seq<seq<KeyValue>>)
    requires CleanJob(job) && OrderInsensitive(job.reducef)
    requires IsRun(job, ss, steps) && i <= |steps| && ss[i].coord.phase == C.Exit
    requires IsReduction(job.reducef, AllPairs(job), sequential)
    ensures OutputsHold(job, ss[i].files, outs)
    ensures multiset(Concat(outs)) == multiset(sequential)
  {
    outs := DoneIsReduction(job, ss, steps, i);
    ReductionUnique(job.reducef, AllPairs(job), Concat(outs), sequential);
  }

  /** A reduce worker of a clean job always finds its files and can read them, and no report makes the coordinator
      index past its tasks. */
  lemma {:induction false} NothingFails(job: Job, ss: seq<System>, steps: seq<Step>, i: nat)
    requires CleanJob(job) && IsRun(job, ss, steps) && i <= |steps|
    ensures forall w | Enabled(job, ss[i], Read(w)) :: AfterRead(ss[i].files, ss[i].workers[w]).Reading?
    ensures forall report | report in ss[i].reports :: report.Report? && InRange(ss[i].coord, report)
  {
    var s := ss[i];
    InvAt(job, ss, steps, i);
    forall w | Enabled(job, s, Read(w)) ensures AfterRead(s.files, s.workers[w]).Reading? {
      var x := s.workers[w];
      CleanReadOk(job, s.files, x.task, x.count, x.next, x.kvs);
    }
    forall report | report in s.reports ensures report.Report? && InRange(s.coord, report) {
      assert ReportOk(job, s.files, report);
    }
  }

  // ---------------------------------------------------------------- jobs that are not clean

  /** The reduce function that reports whether v is among its values. */
  function Spotter(v: string): Reducer {
    (key: string, vs: seq<string>) => if v in vs then "1" else "0"
  }

  lemma {:induction false} SpotterIgnoresOrder(v: string)
    ensures OrderInsensitive(Spotter(v))
  {
    forall k: string, a: seq<string>, b: seq<string> | multiset(a) == multiset(b)
      ensures Spotter(v)(k, a) == Spotter(v)(k, b)
    {
      assert v in a <==> v in multiset(a);
      assert v in b <==> v in multiset(b);
    }
  }

  lemma {:induction false} DigitsAreClean()
    ensures Clean("0") && Clean("1")
  {
  }

  /** What a spotter of v leaves in an output file: clean records, and a 0 for every key if v is not clean. */
  lemma {:induction false} SpotterRecord(v: string, rec: KeyValue)
    requires Honest(Spotter(v), rec)
    ensures CleanPair(rec) && (!Clean(v) ==> rec.value == "0")
  {
    DigitsAreClean();
  }

  lemma {:induction false} ConcatAll(outs: seq<seq<KeyValue>>, x: KeyValue)
    requires x in Concat(outs)
    ensures exists r :: 0 <= r < |outs| && x in outs[r]
  {
    if outs != [] {
      var n := |outs| - 1;
      if x !in outs[n] {
        ConcatAll(outs[..n], x);
        var r :| 0 <= r < n && x in outs[..n][r];
        assert x in outs[r];
      }
    }
  }

  lemma {:induction false} EmittedIn(job: Job, m: nat, n: nat, kv: KeyValue)
    requires m < n <= |job.inputs| && kv in MapOutput(job, m)
    ensures kv in Emitted(job.inputs, job.read, job.mapf, n)
  {
    if m < n - 1 {
      EmittedIn(job, m, n - 1, kv);
    }
  }

  /** The sequential program writes a 1 for the key of every pair whose value is v. */
  lemma {:induction false} SequentialSpots(pairs: multiset<KeyValue>, kv: KeyValue, out: seq<KeyValue>)
    requires kv in pairs && IsReduction(Spotter(kv.value), pairs, out)
    ensures KeyValue(kv.key, "1") in out
  {
    assert Covers(out, kv.key);
    var i :| 0 <= i < |out| && out[i].key == kv.key;
    var rec := out[i];
    assert IsResult(Spotter(kv.value), pairs, rec);
    var vs :| Arranges(vs, pairs, rec.key) && rec.value == Spotter(kv.value)(rec.key, vs);
    assert multiset(vs)[kv.value] == pairs[KeyValue(kv.key, kv.value)];
    assert kv.value in multiset(vs);
  }

  /**
   The condition on words is needed: if some map call emits a pair kv whose key or value is not a clean word, then
   with the order-insensitive reduce function that looks for kv's value every finished run writes output files that
   hold other records than the sequential program's. The records of the files are clean, so the text says which they
   are.
   */
  lemma {:induction false} DirtyJobDiffers(job: Job, m: nat, kv: KeyValue, ss: seq<System>, steps: seq<Step>, i: nat,
                                           sequential: seq<KeyValue>)
    returns (outs: seq<seq<KeyValue>>)
    requires job.reducef == Spotter(kv.value)
    requires m < |job.inputs| && kv in MapOutput(job, m) && !CleanPair(kv)
    requires IsRun(job, ss, steps) && i <= |steps| && ss[i].coord.phase == C.Exit
    requires IsReduction(job.reducef, AllPairs(job), sequential)
    ensures OrderInsensitive(job.reducef)
    ensures OutputsHold(job, ss[i].files, outs) && AllClean(Concat(outs))
    ensures multiset(Concat(outs)) != multiset(sequential)
  {
    SpotterIgnoresOrder(kv.value);
    outs := OutputsWhenDone(job, ss, steps, i);
    forall x | x in Concat(outs) ensures CleanPair(x) && (!Clean(kv.value) ==> x.value == "0") {
      ConcatAll(outs, x);
      var r :| 0 <= r < |outs| && x in outs[r];
      assert OutputRecords(job, r, outs[r]);
      SpotterRecord(kv.value, x);
    }
    EmittedIn(job, m, |job.inputs|, kv);
    SequentialSpots(AllPairs(job), kv, sequential);
    assert KeyValue(kv.key, "1") in multiset(sequential);
    assert KeyValue(kv.key, "1") !in Concat(outs);
  }

  /** The text of clean records says which records they are. */
  lemma {:induction false} CleanTextUnique(a: seq<KeyValue>, b: seq<KeyValue>)
    requires AllClean(a) && AllClean(b) && Text(a) == Text(b)
    ensures a == b
  {
    CleanRoundTrip(a);
    CleanRoundTrip(b);
  }
}
