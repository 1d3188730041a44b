# Distributed systems, verified

This project models the hard parts of a Go code base of distributed systems and proves
what they are for:

* **Raft** (`src/raft1/raft.go`): leader election, log replication with fast backup,
  commit by majority, delivery, log compaction;
* **MapReduce** (`src/mr`, with `src/main/mrsequential.go` as its specification):
  coordinator, workers that may stop anywhere, intermediate and output files;
* **the versioned key/value store** (`src/kvsrv1`), its clerk over a lossy network, and
  the lock built on that clerk;
* **the replicated key/value service** (`src/kvraft1`): the reader and the submitters of
  the replicated state machine, over Raft's delivery promise;
* **shard rebalancing** (`src/shardkv1/shardcfg`).

Protocols are transition systems. A step is one section of code that runs under a lock, one
file operation, or one event of the network; the run theorems quantify over all runs, so
over all schedules, losses, delays, repetitions, crashes and restarts. They come in two kinds.
Safety says that nothing wrong ever happens. Progress says that no state of any run is a dead
end: a cluster can recover, a job can finish, a lock can be had, a command can be answered.
So no safety theorem holds merely because nothing happens. Code that updates
fields in place is a class or a loop, proved to compute a function; the laws are lemmas
about that function.

`dafny verify dfyconfig.toml` checks everything.

## How the modules fit together

| module | what it holds |
|---|---|
| `Majority` | majorities and the index that `commit()` picks |
| `RaftPeer` | one peer as a value, every handler as a function |
| `RaftServer` | the same peer as an object with a compacted slice and a persister, proved against `RaftPeer` |
| `RaftCluster` | peers and network as a transition system |
| `RaftHistory`, `RaftGrowth`, `RaftRecords`, `RaftSteps` | the auxiliary history, the invariant and its proof, step by step |
| `RaftSafety` | the theorems about runs |
| `RaftOrigin` | where entries come from: one Start, one place |
| `RaftRules` | what each handler decides, exactly and for every message |
| `RaftRecovery` | from every state of every race-free run the cluster can recover |
| `RaftRace` | the race between lines 1012 and 863, exactly when it matters and what it breaks; a leader that comes too late |
| `RaftBackup` | fast backup against one-step backup |
| `MrRecords`, `MrText`, `MrGrouping` | pairs, sorting and partition; file text; the two grouping loops |
| `MrCoordinator` | the coordinator as functions, as an object, and over runs of calls |
| `MrJob`, `MrProgress` | coordinator, workers and files together; which jobs can finish |
| `Kv`, `Clerk`, `Lock` | the store, the clerk's calls, the lock |
| `ClerkProgress`, `LockProgress` | what they answer exactly, and what they can still do from every state |
| `Rsm`, `RsmProgress`, `RaftClerk` | the replicated service, what it can still do, and its clerk |
| `Loads`, `ShardBalance`, `ShardConfig` | group loads, the rebalancing function, the configuration object |
| `Runs` | runs of any transition system and what a state leads to |
| `Basics` | optional values, the smaller of two numbers, sizes of sets |

## Results that the code does not meet as it stands

* *The election race.* `ticker` checks the role under the lock (line 1012), releases it, and
  `startElection` increments the term in another section (line 863). A vote that arrives in
  between makes the peer leader of the old term and the increment then moves that leader into
  a term nobody elected it for. `RaftRace.RaceBreaksSafety` is a run of three peers in which
  two of them deliver different commands at index 1. `RaftRace.RaceFreeIffElected` says that
  the leaders of a run are all elected exactly when no such step happens, and the theorems of
  `RaftSafety` hold for every run without it.
* *Leaders that come too late.* A candidate of an older term can become its leader after a newer
  leader has committed (`RaftRace.StaleLeaderMisses` is the run). `RaftSafety.CompleteIffTerm` has
  the exact condition: a leader at any moment after a commit holds what was committed if and only
  if its term is not older than the one that committed it.
* *Words in files.* Intermediate files separate fields by blanks. `MrText.RoundTripIffClean`:
  a file gives back what was written exactly when all keys and values are nonempty and free of
  white space; `MrText.BlankKeyIsGarbled` and `MrText.EmptyValueStopsReader` show the two ways
  it fails. For a whole job, `MrJob.DirtyJobDiffers`: if any other word is emitted, there is an
  order-insensitive reduce function with which every finished run differs from the sequential
  program.
* *Jobs that cannot finish.* `MrCoordinator.FinishesIffNotEmpty`: on the coordinator's side `Done`
  can ever be true exactly when there is an input file and a reduce slice. With the workers,
  `MrProgress.FinishesIffReadable`: exactly when, besides, every line that an emitted pair leaves in
  a file has at least two fields; a pair with fewer stops every worker that reads it.
* *A cluster of one.* `RaftRace.AloneDeliversNothing`: a candidate counts votes only when a reply
  comes, so a single peer never leads. `RaftRecovery.CanRecover` is for two or more.
* *Version conservation.* It needs the network of `src/labrpc`, where a failed call is not
  executed later. `Clerk.LateRequestBreaksConservation` is the run that breaks it otherwise, and
  `Clerk.VersionBounds` is what still holds on any network.
* *The checker's register.* `Kv.ServerFollowsModel`: the register of `src/models1/kv.go` refuses
  an answer of the server exactly when a put with a nonzero version meets a missing key.

## Modelling decisions

* The theorems about several Raft peers are for runs without compaction, which is what
  `maxraftstate == -1` gives; there `RaftSafety.BoundsHold` shows that no snapshot is ever sent.
  Compaction is covered for one peer by `RaftServer` and `RaftServer.CompactionInvisible`.
* Messages between Raft peers stay on the network for ever, so they may be lost, delayed,
  reordered and received again. A request of a clerk is executed at most once per attempt, as
  the RPC layer does it, but possibly late. Reports to the coordinator may arrive any number
  of times.
* The random 64-bit operation ids and the random lock ids are taken to be unique.
* Terms, indices, versions and counters are unbounded. The sentinel 257 of `analyze` is kept as
  it is, which bounds the number of shards by 256.
* Time is a parameter: a timeout is a step that may happen whenever its guard holds.
* Automatic induction is switched off in every lemma, so each proof is exactly what is written.
* `sort.Sort` is any sort by key; hashing is any function; map and reduce are parameters.
* In the replicated service the log grows by operations that some call of `Submit` started. The
  theorems `RaftSafety.StateMachineSafety` and `RaftSafety.CommittedPrefixesAgree` are what
  justifies one log for all replicas, and `RaftOrigin.OnePlace` is what justifies that an operation
  has one place in it, which only `RaftClerk.PutAnswersExact` asks for.

## Model

| member | source | states |
|---|---|---|
| Majority.QuorumsMeet | src/raft1/raft.go:917 | any two strict majorities of the same cluster share a peer |
| Majority.SortDescendingSorts | src/raft1/raft.go:201-208 | the sorted copy is a descending permutation of the match indices |
| Majority.MajorityIndexExact | src/raft1/raft.go:198-212 | for every cluster size, the element at len/2 of the descending copy is exactly the largest index that a strict majority reaches |
| Majority.HoldersQuorum | src/raft1/raft.go:210-212 | the peers that reach the chosen index are a quorum |
| RaftPeer.MajorityIndexBound | src/raft1/raft.go:198-217 | the chosen index lies inside the log when all match indices do |
| RaftRecords.CandidateKeeps | src/raft1/raft.go:414-445 | a candidate log that passes the up-to-date test against a voter that holds an acknowledged entry of an earlier leader holds that entry too |
| RaftRecords.VoteRecorded | src/raft1/raft.go:398-445 | granting a vote to an up-to-date candidate keeps every recorded promise between votes and acknowledgements |
| RaftRecords.AckRecorded | src/raft1/raft.go:558-609 | acknowledging a prefix in the current term keeps those promises |
| RaftRecords.OneLeader | src/raft1/raft.go:913-921 | a term whose candidate has a majority has no other leader |
| RaftRecords.NewReignComplete | src/raft1/raft.go:913-926 | the log of a newly elected leader holds every commit point of earlier terms |
| RaftRecords.LaterLeadersHold | src/raft1/raft.go:210-216 | a fresh commit point is in the log of every leader of a later term, by induction on terms |
| RaftSteps.EveryStep | src/raft1/raft.go:190-1044 | every step of every peer that is not racy keeps the whole invariant and only extends the history |
| RaftSafety.ElectionSafety | src/raft1/raft.go:857-939 | in every race-free run no term ever has two leaders, at whatever moments they lead |
| RaftSafety.LogMatching | src/raft1/raft.go:543-583 | any two logs of a race-free run, of any peers at any moments, that have the same term at an index are equal up to it |
| RaftSafety.LogTermsAscend | src/raft1/raft.go:973-976 | in race-free runs terms never decrease along a log and never exceed the holder's term |
| RaftSafety.AcceptedInPlace | src/raft1/raft.go:558-588 | in every race-free run a message that fits a follower's log puts each of its entries at its index, leaves what comes before alone, and loses what comes behind only if some entry was new |
| RaftSafety.LeaderCompleteness | src/raft1/raft.go:190-222 | in race-free runs what a leader commits is in the log of every leader of a later term, whenever it leads, and stays in its own log for the rest of its term |
| RaftSafety.CompleteIffTerm | src/raft1/raft.go:913-926 | in race-free runs a leader at any moment after a commit holds what was committed if and only if its term is not older than the term that committed it |
| RaftSafety.LeaderHoldsCommitted | src/raft1/raft.go:190-222 | in every race-free run whatever any peer takes for committed is, entry for entry, in the log of every later leader whose term is not older than that peer's was |
| RaftSafety.StateMachineSafety | src/raft1/raft.go:136-187 | in race-free runs no two peers ever deliver different commands at the same index, across crashes, and each life of a peer delivers 1, 2, 3, ... without gaps |
| RaftSafety.CommittedPrefixesAgree | src/raft1/raft.go:590-605 | up to the smaller commit index any two logs of a race-free run are equal |
| RaftSafety.BoundsHold | src/raft1/raft.go:801-812 | in every state of a race-free run every index the handlers use is inside its slice, and a leader's next index never reaches 0 |
| RaftSafety.StepKeepsVote | src/raft1/raft.go:245-316 | one step, a crash included, never lowers the term, never changes a vote within its term and, but for a crash, never lowers the commit index |
| RaftSafety.VotesPersist | src/raft1/raft.go:371-452 | over any stretch of any run the term never goes back and a vote outlives every crash of its term |
| RaftRace.RaceFreeIffElected | src/raft1/raft.go:1011-1022 | for any number of peers, every leader of a run holds a majority of the votes of its term exactly when no election step runs on a peer that became leader since the role check |
| RaftRace.RaceElectsTwo | src/raft1/raft.go:857-876 | a run of three peers with one such step has two leaders of one term |
| RaftRace.RaceBreaksSafety | src/raft1/raft.go:857-876 | and two peers that deliver different commands at index 1 |
| RaftRace.StaleLeaderMisses | src/raft1/raft.go:907-926 | a race-free run of three peers in which peer 1 commits index 1 and a late vote then makes peer 0 leader of an older term with an empty log |
| RaftRace.AloneDeliversNothing | src/raft1/raft.go:879-921 | a cluster of one peer never commits or delivers anything, because votes are only counted when a reply comes |
| RaftOrigin.StartedAt | src/raft1/raft.go:562-583 | in every run, racy or not, every entry of every log and message was appended at its index by a call of Start on a leader |
| RaftOrigin.OnePlace | src/raft1/raft.go:973-976 | in every run a command that is started once sits at one index in all logs at all moments |
| RaftBackup.BackUpBounds | src/raft1/raft.go:527-556 | a probe succeeds exactly at or before the match point; after a rejection the new next index is strictly smaller and never below one past the match point |
| RaftBackup.FastProbe | src/raft1/raft.go:734-783 | probing with fast backup ends exactly one past the match point |
| RaftBackup.SlowProbe | src/raft1/raft.go:527-533 | the reference that goes back by one ends there too, after as many rejections as there are indices in between |
| RaftBackup.FastRefinesSlow | src/raft1/raft.go:734-783 | both end at the same index, and fast backup needs no more rejected probes |
| RaftBackup.LogsComparable | src/raft1/raft.go:543-556 | any two logs of a race-free run meet the conditions of the backup bounds |
| RaftBackup.RejectionBacksUp | src/raft1/raft.go:734-783 | in every race-free run a message that is not stale is accepted exactly at or before the match point of leader and follower, and a rejection makes the leader try an index strictly smaller than the probed one and never below one past the match point |
| RaftBackup.BackUpExact | src/raft1/raft.go:741-764 | where a rejection sends the leader: to the end of a log that is too short; else right behind its own last entry of the conflicting term; else to the first entry of that term in the follower's log |
| RaftBackup.FastRounds | src/raft1/raft.go:741-764 | probing needs one rejection for a log that is too short and then at most one for each term the follower has behind the match point, however many entries they have |
| RaftRules.VoteExact | src/raft1/raft.go:371-452 | a vote is granted if and only if the request is not of an older term and the vote of that term is the candidate's already, or free and the candidate's last (term, index) at least the voter's; the asker is told a newer term exactly when its own is older |
| RaftRules.ExtenderNotRefused | src/raft1/raft.go:414-445 | a candidate whose log extends the voter's is never refused by a voter that has not voted in its term |
| RaftRules.ElectionExact | src/raft1/raft.go:857-876 | an election starts the next term with the candidate's own vote, and a peer not yet in that term answers its request by the logs alone |
| RaftRules.VoteReplyExact | src/raft1/raft.go:893-936 | a candidate becomes leader exactly when its voters, each counted once, are a strict majority with this reply; a newer term makes it step down; late replies do nothing |
| RaftRules.MergeExact | src/raft1/raft.go:561-583 | accepted entries change the log from the first difference on and nowhere else; without a difference nothing is lost |
| RaftRules.MergeHolds | src/raft1/raft.go:561-583 | after the merge every entry of the message stands at its index and what comes before is untouched |
| RaftRules.AppendExact | src/raft1/raft.go:503-609 | an AppendEntries succeeds exactly when it fits or starts before the snapshot; where it fits, the commit index becomes the larger of its old value and what the leader has committed of the entries the message covers; a rejection tells the log's length and where the conflicting term starts |
| RaftRules.AppendFits | src/raft1/raft.go:558-588 | what the log holds after a message that fits, and that nothing is lost that it does not contradict |
| RaftRules.MessageExact | src/raft1/raft.go:800-822 | a message carries nothing until the match point is known, and then the whole rest of the log |
| RaftRules.AppendReplyExact | src/raft1/raft.go:716-795 | a success moves the match index to the end of the message and the next index behind it, never back; a rejection moves the next index to where fast backup says unless that is matched or compacted; no other peer's indices move |
| RaftRules.CommitExact | src/raft1/raft.go:190-222 | the commit index moves if and only if the peer leads and the largest index that a strict majority reaches is above it and holds an entry of the current term, and then it moves there |
| RaftRules.MajorityReachesSome | src/raft1/raft.go:198-212 | there always is a largest index that a strict majority reaches |
| RaftRules.RestartExact | src/raft1/raft.go:270-316 | a crash keeps exactly what was persisted |
| RaftRules.ApplierCatchesUp | src/raft1/raft.go:163-184 | once the applier has taken a batch and sent it, everything committed has been delivered, each index once |
| RaftRecovery.BestIsElected | src/raft1/raft.go:857-939 | once everybody has restarted, a peer with a log at least as up to date as anybody's can be elected |
| RaftRecovery.CatchUp | src/raft1/raft.go:734-822 | however the logs differ, probing and sending make the follower's log the leader's, and the leader learns of it |
| RaftRecovery.CanRecover | src/raft1/raft.go:136-1044 | every race-free run of two or more peers can go on, race-free, to a state where all peers have the same log, all of it committed and delivered, with everything any peer ever delivered first in it and a given new command last |
| RaftServer.Server.constructor | src/raft1/raft.go:1055-1082 | a new server is the fresh peer, and its persister is up to date |
| RaftServer.Server.Restart | src/raft1/raft.go:270-316 | a restart gives back exactly term, vote, log and snapshot index and resets the rest |
| RaftServer.Server.GetEntry | src/raft1/raft.go:93-102 | the physical slice gives the entry of the uncompacted log at every index from the snapshot on |
| RaftServer.Server.GetSlice | src/raft1/raft.go:104-113 | and the same for slices |
| RaftServer.Server.LogLength | src/raft1/raft.go:115-117 | the logical length is that of the uncompacted log |
| RaftServer.Server.RequestVote | src/raft1/raft.go:371-452 | computes the vote function on the uncompacted log, with the persister up to date on return |
| RaftServer.Server.StartElection | src/raft1/raft.go:857-876 | computes the first section of an election |
| RaftServer.Server.ResetIndices | src/raft1/raft.go:922-926 | every next index becomes the log length and every match index 0 |
| RaftServer.Server.OnVoteReply | src/raft1/raft.go:893-936 | computes the vote count, with one vote per peer, and the become-leader step |
| RaftServer.Server.FirstConflict | src/raft1/raft.go:546-549 | the loop finds the first index of the conflicting term above the snapshot |
| RaftServer.Server.MergeEntries | src/raft1/raft.go:561-583 | the loop appends, overwrites and truncates the slice to the merge of the uncompacted log |
| RaftServer.Server.TakeEntries | src/raft1/raft.go:561-588 | merges the entries and leaves the persister up to date |
| RaftServer.Server.FollowCommit | src/raft1/raft.go:590-603 | moves the commit index as far as the message and the log reach, never back |
| RaftServer.Server.AcceptEntries | src/raft1/raft.go:558-609 | merges and moves the commit index as far as the message reaches, never back |
| RaftServer.Server.Follow | src/raft1/raft.go:517-525 | a newer term is adopted with the vote cleared and the persister up to date; the peer follows either way |
| RaftServer.Server.AppendEntries | src/raft1/raft.go:503-609 | computes the append function on the uncompacted log in every branch |
| RaftServer.Server.MakeAppendTo | src/raft1/raft.go:800-822 | the message built from the slice is the one built from the uncompacted log; a next index at or before the snapshot gets the snapshot instead |
| RaftServer.Server.SearchTerm | src/raft1/raft.go:751-754 | the leader's search for the conflicting term |
| RaftServer.Server.OnAppendReply | src/raft1/raft.go:716-795 | computes the reply function: step down, ignore, back up or credit, also for a request whose previous index has been compacted since |
| RaftServer.Server.RunCommit | src/raft1/raft.go:190-222 | computes the commit function with every access inside the slice, whenever the majority index is not both above the commit index and before the snapshot, where the source panics |
| RaftServer.Server.Start | src/raft1/raft.go:952-983 | only a leader appends, at the index it returns, and the entry is persisted |
| RaftServer.Server.ApplierTake | src/raft1/raft.go:163-170 | takes exactly the committed entries not taken yet |
| RaftServer.Server.ApplierSend | src/raft1/raft.go:171-184 | sends the taken entries one by one in order |
| RaftServer.Server.Snapshot | src/raft1/raft.go:329-350 | cuts the slice, changes nothing of the uncompacted log, and refuses indices not applied or already cut |
| RaftServer.Server.MoveBase | src/raft1/raft.go:644-655 | the slice is cut where the log holds the snapshot's last entry and replaced by one entry of its term where it does not |
| RaftServer.Server.InstallSnapshot | src/raft1/raft.go:623-665 | the retained branch leaves the uncompacted log alone; the other replaces it; stale ones change nothing |
| RaftServer.CompactionInvisible | src/raft1/raft.go:535-609 | on a message from the snapshot on, a compacted peer decides, merges and commits as the uncompacted one; only the conflict hint may stop at the slice |
| MrRecords.SortByKey | src/mr/worker.go:207 | the sort leaves a sorted permutation |
| MrRecords.BucketCount | src/mr/worker.go:133-137 | every pair lands in the bucket of its key, as often as it was emitted, and in no other |
| MrRecords.BucketConcat | src/mr/worker.go:133-137 | partitioning two outputs together is partitioning each |
| MrRecords.ReductionsMerge | src/mr/worker.go:209-239 | reductions of pairs that share no key put together are a reduction of all of them |
| MrRecords.ReductionUnique | src/main/mrsequential.go:64-84 | two reductions of the same pairs hold the same records when the reduce function ignores order |
| MrGrouping.Partition | src/mr/worker.go:133-137 | the loop's slice r is exactly the emitted pairs of bucket r, in order |
| MrGrouping.ReduceSorted | src/mr/worker.go:209-239 | the worker's loop computes the run-by-run reduction, and no result is overwritten |
| MrGrouping.EndOfRun | src/main/mrsequential.go:70-73 | the loop finds the end of the run of equal keys |
| MrGrouping.CollectValues | src/main/mrsequential.go:74-77 | the loop collects the run's values in order |
| MrGrouping.ReduceSequentially | src/main/mrsequential.go:68-84 | the sequential loop computes the same function |
| MrGrouping.ReductionReduces | src/mr/worker.go:217-239 | on a sorted slice that function calls reduce once for each distinct key with exactly that key's values |
| MrGrouping.Sequential | src/main/mrsequential.go:38-84 | the sequential program outputs a reduction of everything the map calls emit |
| MrText.WriteRecords | src/mr/worker.go:147-149 | the loop writes the text of the records |
| MrText.ReadRecords | src/mr/worker.go:199-205 | the loop computes the parse, and fails on a line of fewer than two fields |
| MrText.RoundTripIffClean | src/mr/worker.go:147-205 | a file reads back as what was written exactly when all keys and values are nonempty words without white space |
| MrText.BlankKeyIsGarbled | src/mr/worker.go:199-205 | a key of two words comes back as another pair |
| MrText.EmptyValueStopsReader | src/mr/worker.go:203-204 | an empty value stops the worker that reads it |
| MrText.ReadsIffReadable | src/mr/worker.go:199-205 | a reader gets through a file exactly when it gets through each of its pairs, in whatever order they stand |
| MrCoordinator.FirstAvailable | src/mr/coordinator.go:69-108 | the first task that is idle or overdue, with none before it |
| MrCoordinator.Service.constructor | src/mr/coordinator.go:266-282 | all map tasks idle, map phase |
| MrCoordinator.Service.Register | src/mr/coordinator.go:42-60 | hands out a new id, or -1 after the end |
| MrCoordinator.Service.GetTask | src/mr/coordinator.go:62-167 | the scans compute the assignment function, and a map answer names the file of its task |
| MrCoordinator.Service.ReportTaskDone | src/mr/coordinator.go:169-237 | computes the report function in every phase, with the advance to the next phase |
| MrCoordinator.Service.IsDone | src/mr/coordinator.go:253-261 | true exactly in the exit phase |
| MrCoordinator.After | src/mr/coordinator.go:179-184 | a report that names an existing task of its kind never indexes past the tasks of the running phase |
| MrCoordinator.ReducesFollowMaps | src/mr/coordinator.go:115-167 | over any run of calls, a reduce task is handed out only after every map task was reported, and workers are sent home only after every task was |
| MrCoordinator.DoneNeverHandedOutAgain | src/mr/coordinator.go:184-193 | once a report for the running phase arrived, its task is never handed out again, whatever is called |
| MrCoordinator.GetTaskExact | src/mr/coordinator.go:62-167 | an ask gets the first task that may be handed out, which is then out with this worker from now on; Wait is said only while every task is done or out in time |
| MrCoordinator.ReportExact | src/mr/coordinator.go:169-237 | a late or repeated report changes nothing; any other closes its task; the last of the map phase opens all reduce tasks and the last of those ends the job |
| MrCoordinator.NotTwiceInTime | src/mr/coordinator.go:87-102 | in every run of calls, more than the timeout passes between two consecutive hand-outs of the same task |
| MrCoordinator.IdsDiffer | src/mr/coordinator.go:42-60 | in every run of calls no two workers get the same id, and one is refused exactly when the job is over |
| MrCoordinator.LeftDrops | src/mr/coordinator.go:195-229 | every effective report lowers the number of reports still needed by one and no other call changes it |
| MrCoordinator.FinishedRunCounts | src/mr/coordinator.go:169-237 | a finished run has exactly one effective report for each map and each reduce task |
| MrCoordinator.FinishesIffNotEmpty | src/mr/coordinator.go:195-229 | some run of calls finishes the job exactly when there is a map task and a reduce task |
| MrJob.SliceReads | src/mr/worker.go:182-206 | in a clean job a published slice, whoever wrote it, reads back as the pairs of that map task for that reduce task |
| MrJob.StepKeepsInv | src/mr/worker.go:88-278 | for every job, every step of every worker, of the files and of the coordinator keeps: published files are complete, what was reported was published, intermediate files are right, and outputs are right if the job is clean |
| MrJob.DoneIsReduction | src/mr/worker.go:117-252 | in a clean job, when the coordinator is done the output files exist and together are a reduction of all emitted pairs, for any reduce function |
| MrJob.JobEqualsSequential | src/mr/coordinator.go:62-237 | in a clean job, when the coordinator is done the records in all output files are, as a multiset, those of the sequential program, for order-insensitive reduce, over any timeouts, reassignments, repeated reports and crashes |
| MrJob.NothingFails | src/mr/worker.go:186-204 | in a clean job no reduce worker ever misses a file or fails to parse one, and no report indexes past the coordinator's tasks |
| MrJob.DirtyJobDiffers | src/mr/worker.go:147-206 | if some map call emits a key or value that is empty or has white space, then with the order-insensitive reduce function that looks for that value every finished run writes other records than the sequential program |
| MrJob.CleanTextUnique | src/mr/worker.go:244-246 | the text of clean records says which records they are |
| MrProgress.BeginExact | src/mr/worker.go:106-136 | what a worker makes of each answer: a map task gets one slice for each reduce task and each emitted pair is in the slice of its key, as often as it was emitted, and in no other |
| MrProgress.JobCanFinish | src/mr/worker.go:88-278 | from every state of every run, whoever stopped and whatever was lost, a job that has something to do and emits only readable pairs can be brought to its end |
| MrProgress.FinishesIffReadable | src/mr/worker.go:199-206 | exactly the jobs with an input file, a reduce task and only readable pairs can finish |
| MrProgress.CleanJobCanFinish | src/mr/coordinator.go:62-237 | a clean job that has something to do can finish from every state of every run, and then holds the sequential program's records |
| Kv.PutExact | src/kvsrv1/server.go:66-105 | a put succeeds exactly when the versions agree, then adds one to the version of its key and touches no other |
| Kv.GetThenPut | src/kvsrv1/server.go:42-105 | what a get returns is what a put needs: a put with the version just read succeeds, and a get after it returns the value one version up |
| Kv.Server.Get | src/kvsrv1/server.go:42-60 | computes the get function |
| Kv.Server.Put | src/kvsrv1/server.go:66-105 | computes the put function on the stored map |
| Kv.ServerFollowsModel | src/models1/kv.go:44-67 | on every key the server follows the checker's register; the model refuses an answer exactly for a nonzero version on a missing key |
| Clerk.Put | src/kvsrv1/client.go:82-114 | the loop resends until a reply comes and says ErrMaybe only after a resend |
| Clerk.StepKeepsInv | src/kvsrv1/client.go:82-114 | every step of every call and of the network keeps what replies and answers prove |
| Clerk.AnswersExact | src/kvsrv1/client.go:82-114 | at most one attempt of a call takes effect; OK means exactly one has; ErrVersion means none has and none ever will; ErrMaybe only after a resend |
| Clerk.OneWinnerPerVersion | src/kvsrv1/server.go:90-104 | in every run at most one put ever succeeds on a given version of a key |
| Clerk.VersionConservation | src/kvtest1/kvtest.go:137-151 | on the simulated network, once all calls returned, every key's version lies between the number of OK answers and that plus the number of ErrMaybe answers |
| Clerk.VersionBounds | src/kvsrv1/client.go:99-112 | on any network the same holds with the ErrNoKey answers added on the right |
| Clerk.LateRequestBreaksConservation | src/kvsrv1/client.go:102-103 | a run in which a late request breaks conservation |
| ClerkProgress.ReturnExact | src/kvsrv1/client.go:99-112 | in every run the answer is OK if and only if the attempt it waited for took effect; a refusal is told as ErrMaybe if and only if the call was sent more than once |
| ClerkProgress.ExecuteExact | src/kvsrv1/server.go:66-105 | an executed attempt takes effect exactly if its call had not and its version still stands, and is answered accordingly |
| ClerkProgress.CallCanReturn | src/kvsrv1/client.go:93-97 | from every state of every run a call that has not returned can get its answer, and OK if its version still stands and it had not taken effect |
| ClerkProgress.PutOnGoodNetwork | src/kvsrv1/client.go:82-114 | from every state of every run a new Put whose messages are not lost is told OK and stored if and only if its version is the stored one; else it is told why and nothing changes |
| Lock.MoveKeepsLock | src/kvsrv1/lock/lock.go:26-110 | every move of every client and of the network keeps the lock invariant |
| Lock.MutualExclusion | src/kvsrv1/lock/lock.go:47-110 | in every run at most one client per lock name is between Acquire's return and its release taking effect, and the stored value is then that client's id |
| Lock.ReleaseReleasesOwn | src/kvsrv1/lock/lock.go:83-110 | Release decides only after its own put took effect |
| Lock.NoLockIsOrphaned | src/kvsrv1/lock/lock.go:57-80 | a lock that is taken has a client that holds it or is still inside the Acquire that took it |
| LockProgress.MakeTries | src/kvsrv1/lock/lock.go:31-40 | MakeLock puts "None" at version 0 exactly when the key does not exist |
| LockProgress.AcquireTries | src/kvsrv1/lock/lock.go:50-58 | a client that read "None" at some version starts exactly one put, of its new id on its own lock at that version; one that read anything else starts nothing |
| LockProgress.AcquireDecides | src/kvsrv1/lock/lock.go:60-79 | OK means held, ErrMaybe means that the lock is read again; the check comes out held exactly when the put took effect, and trying again means that it did not |
| LockProgress.ReleaseTries | src/kvsrv1/lock/lock.go:86-87 | Release puts "None" on its own lock at the version it has read |
| LockProgress.ReleaseDecides | src/kvsrv1/lock/lock.go:89-108 | OK ends a Release, ErrMaybe makes it read again and that read ends it |
| LockProgress.CanAcquire | src/kvsrv1/lock/lock.go:47-110 | from every state of every run, wherever the clients stand and whatever is in flight, every client can come to hold its lock, with its id stored |
| LockProgress.CanRelease | src/kvsrv1/lock/lock.go:83-110 | from every state of every run a client that has its lock can give it back and ends idle with "None" stored |
| Rsm.KVServer.Execute | src/kvraft1/server.go:33-83 | computes the state machine's function on the stored map |
| Rsm.KVServer.Restore | src/kvraft1/server.go:100-120 | the map becomes the snapshot's; a snapshot without data changes nothing |
| Rsm.KVServer.ApplyReader | src/kvraft1/rsm/rsm.go:55-90 | over deliverable messages the map is the fold of the log up to the last index, and there is one result for each command, in order, the one at its index |
| Rsm.StepKeepsInv | src/kvraft1/rsm/rsm.go:134-168 | every step of submitters, readers, Raft and restarts keeps: channels, buffers and answers only carry what the log says at their index |
| Rsm.ReplicasFollowLog | src/kvraft1/rsm/rsm.go:55-90 | in every run each replica's map is the fold of the committed prefix it has applied, through snapshots and restarts |
| Rsm.RepliesAreSequential | src/kvraft1/rsm/rsm.go:134-168 | Submit says OK only when its own operation sits at its index, and then with the result of running the log in order, though indices are reused and channels overwritten or deleted |
| Rsm.PlacesDiffer | src/kvraft1/rsm/rsm.go:151-163 | two calls that got OK have two places in the log |
| Rsm.RealTimeOrder | src/kvraft1/rsm/rsm.go:134-168 | a call that starts after another returned OK and gets OK itself comes later in the log, so OK replies are linearizable |
| Rsm.ReaderNeverBlocks | src/kvraft1/rsm/rsm.go:74-83 | a channel with room for one message suffices: the reader never waits to send |
| RsmProgress.TakeExact | src/kvraft1/rsm/rsm.go:157-163 | in every run a call that takes a message says OK with the result of running the log up to its index if its own operation sits there, and ErrWrongLeader otherwise |
| RsmProgress.LookupExact | src/kvraft1/rsm/rsm.go:74-84 | a result goes to the live call listed under its index and is dropped exactly when none is listed |
| RsmProgress.GetReadsLastWrite | src/kvraft1/server.go:33-79 | a Get answered OK returns the value of the last successful put on its key before it in the log, with a version that counts them |
| RsmProgress.CallsDieWithProcess | src/kvraft1/rsm/rsm.go:107-125 | a restart ends the calls of its process for ever and touches no other call |
| RsmProgress.RefusedAtOnce | src/kvraft1/rsm/rsm.go:144-149 | a Submit that Raft refuses returns at once with nothing listed |
| RsmProgress.SubmitCanSucceed | src/kvraft1/rsm/rsm.go:134-168 | from every state of every run a command submitted on any replica can be committed, applied and answered OK with the result of running the whole log before it |
| RsmProgress.CallCanEnd | src/kvraft1/rsm/rsm.go:151-167 | from every state of every run a call whose process lives can end without help from anyone, and then nothing is listed under its index |
| RsmProgress.SnapshotCatchesUp | src/kvraft1/rsm/rsm.go:69-88 | a snapshot that one replica saves can take any replica that lags behind to its store and index, by installing it or by restarting from it |
| RaftClerk.RaftClerk.Put | src/kvraft1/client.go:78-108 | turns to the next server exactly after a lost request or a wrong leader; ErrVersion only if there was none, ErrMaybe only if there was one |
| RaftClerk.OneSuccessPerVersion | src/kvraft1/server.go:53-79 | at most one put on a given version of a key succeeds, wherever in the log |
| RaftClerk.PutAnswersExact | src/kvraft1/client.go:78-108 | over all attempts of a Put and at every later moment: at most one attempt takes effect; OK means one has, at its place in the log; ErrVersion means none has and none ever will |
| RaftClerk.AnsweredPutExact | src/kvraft1/client.go:94-106 | an attempt answered OK put its value one version up at its place in the log, and a refused one left the store there as it was |
| Loads.MoveShrinks | src/shardkv1/shardcfg/shardcfg.go:141-153 | each move between groups two or more apart lowers the sum of squares |
| Loads.MoveNeeded | src/shardkv1/shardcfg/shardcfg.go:141-153 | each move from most to least brings the groups exactly one shard closer to balance |
| Loads.FillNeutral | src/shardkv1/shardcfg/shardcfg.go:132-138 | giving a free shard to the least loaded group does not change what has to move |
| Loads.BalancedShape | src/shardkv1/shardcfg/shardcfg.go:140-144 | loads within one of each other are the even split |
| Loads.NeedIsLowerBound | src/shardkv1/shardcfg/shardcfg.go:140-153 | no balanced target is reached with fewer departures |
| ShardBalance.RebalanceBalances | src/shardkv1/shardcfg/shardcfg.go:122-154 | from any start every shard ends with a member group and no two groups are more than one apart |
| ShardBalance.ChangesAtLeast | src/shardkv1/shardcfg/shardcfg.go:122-154 | every balanced assignment changes at least the free shards and those that must move |
| ShardBalance.RebalanceIsMinimal | src/shardkv1/shardcfg/shardcfg.go:122-154 | no balanced assignment over the same groups changes fewer shards, whatever the start |
| ShardBalance.JoinMoves | src/shardkv1/shardcfg/shardcfg.go:207-213 | a group that joins balanced groups gets exactly floor(N/(k+1)) shards and nothing else moves |
| ShardBalance.LeaveMovesOnlyDeparted | src/shardkv1/shardcfg/shardcfg.go:215-221 | when a group leaves balanced groups only its shards move and the second loop makes no move |
| ShardBalance.NoGroupsUnassign | src/shardkv1/shardcfg/shardcfg.go:123-129 | without groups every shard ends at group 0 |
| ShardBalance.RebalanceByMoves | src/shardkv1/shardcfg/shardcfg.go:131-153 | the result is what these moves reach: the first shard without a group to the least loaded group, then the first shard of the most loaded group to the least loaded one while they are two apart, ties to the smallest id; no move is left at the end |
| ShardBalance.MovesDetermined | src/shardkv1/shardcfg/shardcfg.go:80-111 | each of these moves is determined, so every server computes the same configuration |
| ShardConfig.AscendingUnique | src/shardkv1/shardcfg/shardcfg.go:90-98 | an ascending list of the groups is unique, so map order cannot matter |
| ShardConfig.Config.SortedGids | src/shardkv1/shardcfg/shardcfg.go:92-98 | whatever order the map yields, the sorted ids are the ascending list |
| ShardConfig.Config.Tally | src/shardkv1/shardcfg/shardcfg.go:81-84 | counts the shards of every group |
| ShardConfig.Config.Scan | src/shardkv1/shardcfg/shardcfg.go:86-108 | the scan finds the first most and the first least loaded of the listed groups |
| ShardConfig.Config.Analyze | src/shardkv1/shardcfg/shardcfg.go:80-111 | the first most and the first least loaded group in ascending order |
| ShardConfig.Config.FillShards | src/shardkv1/shardcfg/shardcfg.go:131-138 | the loop computes the filling function |
| ShardConfig.Config.MoveOne | src/shardkv1/shardcfg/shardcfg.go:146-152 | moves the first shard of the group |
| ShardConfig.Config.LevelShards | src/shardkv1/shardcfg/shardcfg.go:141-153 | the unbounded loop ends, and computes the levelling function |
| ShardConfig.Config.Rebalance | src/shardkv1/shardcfg/shardcfg.go:122-154 | computes the rebalancing function for up to 256 shards, or unassigns everything without groups |
| ShardConfig.Config.Clashes | src/shardkv1/shardcfg/shardcfg.go:164-172 | the nested loops find a shared server exactly when there is one |
| ShardConfig.Config.Join | src/shardkv1/shardcfg/shardcfg.go:156-183 | succeeds exactly when there is a group to join, none is known and no server is shared, in whatever order the map is walked; a refusal keeps every old group but may have taken some of the new ones |
| ShardConfig.Config.JoinBalance | src/shardkv1/shardcfg/shardcfg.go:207-213 | a join that succeeds is followed by the rebalance over old and new groups, any other leaves the shards alone |
| ShardConfig.Config.Leave | src/shardkv1/shardcfg/shardcfg.go:185-205 | succeeds exactly for a nonempty list of known groups without repetition, which are then gone; a refusal comes at the first bad group, with those before it gone |
| ShardConfig.Config.LeaveBalance | src/shardkv1/shardcfg/shardcfg.go:215-221 | a leave that succeeds is followed by the rebalance over the groups left; a refusal leaves the shards alone, though the groups before the first bad one are gone |

## Left out

- Raft with compaction across peers: a stale append before the snapshot is answered with success (raft.go:535-541) and credited (raft.go:787-790), and installing a snapshot neither adopts nor checks terms (raft.go:623-665, 700-705), so the invariants behind the theorems do not hold there
- RaftServer.Server.InstallSnapshot: when the log does not reach the snapshot, what the entries before it were is not modelled
- the reply to a snapshot that was sent (raft.go:681-705)
- the applier's delivery of an installed snapshot, and delivery after a restart from one
- liveness under fair schedules: timers, sleeps, back-off and condition variables are steps that may or may not happen; what is proved is that progress stays possible from every state
- RaftSafety.ElectionSafety: stated for race-free runs, because the race makes it false; RaftRace has the exact condition for elected leaders and the run that breaks it
- MrCoordinator.Service.Register: the check for a negative counter is kept but never taken, since the counter is unbounded
- MrJob.JobEqualsSequential: for jobs whose keys and values are nonempty words without white space; MrJob.DirtyJobDiffers says what happens to the others
- text as bytes: strings are sequences of characters, so invalid UTF-8 is not covered
- Acquire and Release of the lock are program points of a state machine rather than loops, since their calls interleave with those of other clients
- the channel map of the replicated state machine is a value in a state machine, since submitters and reader interleave; KVServer has the loop over messages
- RaftClerk.RaftClerk.Put: an ErrNoKey reply has no branch in the source and the request is sent again; over a finite list of outcomes the call may not return
- the two Get loops of the clerks, which only read
- the JSON text of a configuration, its copy and its lookups
- Partition of the checker's model, which splits a history by key
- the network, gob encoding, the persister's files, process control and test drivers: only their abstract effect is kept
- hashing, the map and reduce applications, and the unfinished sharded service
