# A model of the calculation tree, its wire format and its queues

The program is a distributed calculator.  A client types commands; a manager process
(`CalcTree`, id 0) passes them down a tree of `CalcTreeNode` processes, each of which
remembers in a list of anonymous command records how many of its children have responded and
folds their responses into what it sends to its ancestor.  Messages travel as texts through a
push queue, a link and a pull queue.  The model proves what this protocol keeps and promises,
and where it does not keep its promises.

## Layout

* `Messages`, `NodeSpec`, `Sweep`, `Records`: messages, and one process as a value; what each
  handler does to its state, its link to the ancestor and its links to the children.
* `CalcNode`: the same handlers as they run, on a class that updates its child list and record
  list in place, each proved to have the effect given in `NodeSpec`.
* `TreeSystem`: the whole tree as a state machine; a run is one interleaving of all processes.
* `SingleCommand`, `OneAnswer`, `Shapes`, `Growth`, `Termination`, `Liveness`, `RecordsAfter`,
  `RecordLife`: one command on a tree with fresh records, or with any records where nobody
  says yes to it.  `Ways`, `Reachability`, `HitWay`, `Resting`, `HitRuns`: a command that one
  process says yes to, whatever the records.  `NextCommand`, `History`: both together, for the
  next command after any history.  `Unanswered`: the second of two exec commands.  `InTurn`,
  `Inputs`: command sequences that end badly.  `ExistingId`, `ExistingIdRuns`: a create
  command for an id that is already there.
* `AllMiss`: pipelined exec commands that no node answers.  `Chain`, `ChainResults`: pipelined
  commands on a chain.
* `KillWave`, `DeathReports`, `Heartbeats`, `HeartbeatRuns`, `SweepRuns`: stopping, death
  reports, heartbeats on their own and in runs of whole trees, sweeps.
* `Leftovers`, `Lookups`: records that stay behind, and lookups without an end check.
* `TextStream`, `Decimal`, `Rounding`, `Fields`, `Codec`, `RoundTrip`, `AuthorizationText`,
  `WireTheorems`, `WireTexts`: the wire format as functions, what it preserves and what it
  looks like.  `MessageText`: the same code as it runs, by appending and by a moving cursor.
* `ConcurrentQueue`, `Pipeline`, `Delivery`, `MessageQueues`: the queues and their threads.
* `Numerals`, `ClientParser`, `CommandLines`, `TypedLines`: the command line of the client, as
  it is printed and as it is typed.

## Reading the model

* The manager and the nodes share every handler but the one for exec, so they are one entity
  with a flag `manager`.  The manager appends its exec record before it sends the copies, a
  node after; nothing can tell the difference, because a handler runs to its end before the
  next message is taken.
* Every link is a reliable first-in first-out queue of whole messages; in which order a process
  takes from different links is open.  A process receives everything through one queue in the
  code; its order is then one of those the model allows.
* Commands that are issued while earlier ones are under way are modelled as already waiting in
  front of the manager, which takes them at any later moment.
* A create command makes at most one process fork.  How that fork comes out is chosen with the
  command; it is not part of the message.
* `counted` and `relayed` in `TreeSystem.Tree` are history variables; no handler reads them.
* A `double` is an exact real, and `std::to_string` rounds it to six decimals, halves to even.
* The two call sites of `BadCreateResp` pass parent and new id in this order to a constructor
  that takes them the other way round; the model does the same.
* A dead end leaves its fresh record behind, and a record that is full and has seen a good answer
  stays when the last response is bad, both as in the code. Later commands then count in the wrong
  record, which breaks the requirements (docs/requirements.md:5-24) that every exec and create
  command is answered. A command can go unanswered (`Inputs.SecondExecUnanswered`,
  `Inputs.SecondCreateUnanswered`), be answered twice (`Inputs.TwoAnswers`), or make a process look
  up a record that is not there (`Inputs.LookupLost`, where every id exists), though commands are
  given one at a time. At rest a process can hold any first record that is not full or has seen a
  good answer, and only fresh ones behind it (`History.HistoryRests`); for all such trees
  `NextCommand.ServedRightIff` says exactly when the next command is served right,
  `NextCommand.ExecLookupCanFailIff` and `NextCommand.ExecTwoAnswersIff` when it can go wrong in
  which way. The conditions are functions of the records and ids alone: `SingleCommand.Misses`,
  whether the records let a bad answer through, and `HitWay.Fails`, whether a record can be lost.
* NodeExist closes a record before the other children have responded, as in the code, so a
  later response can miss its record that way as well.  `ExistingIdRuns.LookupCanFailIff` says
  for which trees one such create can lead to that, `Lookups.EveryOrderSafeIff` for which
  numbers of answers at one process.
* The documentation asks for the command `print tree` (docs/commands_list.md:6); the parser
  accepts `print` alone and rejects the longer form (`CommandLines.PrintTreeIsRejected`,
  `CommandLines.PrintLineIff`).  The model follows the parser.
* The pass of the loop in which a process is told to stop may still end with a sweep; the
  model allows sweeps until the destructors run.
* The pass command and the tree printout have no effect in the tree; `Codec` and
  `ClientParser` know the name of the former only.
* Reading an integer or a number follows the stream operators of the C++ library in the default
  locale, signs, overflow of integers and exponents included.

## Model

| member | source | states |
|---|---|---|
| `CalcNode.CalcTreeNode.FindRecord` | src/server/core/calc_tree_node_main.cpp:298-302 | Returns the position of the first record of the type; that there is one is a precondition, as in the code, which has no end check |
| `CalcNode.CalcTreeNode.AccountBadResp` | src/server/core/calc_tree_node_main.cpp:227-234 | Counts in the first record of the type and, only when that record is full without having seen a good response, removes it and passes the response on; the new state and the messages pushed are those of the handler specification |
| `CalcNode.CalcTreeNode.AccountGoodResp` | src/server/core/calc_tree_node_main.cpp:236-243 | Counts and marks the record, removes it when full, always passes the response on |
| `CalcNode.CalcTreeNode.CloseRecordAndRedirectResp` | src/server/core/calc_tree_node_main.cpp:263-267 | Removes the first create record whatever it has counted and passes the response on |
| `CalcNode.CalcTreeNode.HandleHeartbeat` | src/server/core/calc_tree_node_main.cpp:133-142 | Stamps the first child with the id, changes no other child, pushes nothing |
| `HeartbeatRuns.BeatHandled` | src/server/core/calc_tree_node_main.cpp:133-142 | What the handler of responses does with a heartbeat, in any state: the first child with the id has the time as its stamp, all other stamps, ids, pids and everything else stay, nothing is pushed |
| `CalcNode.CalcTreeNode.HandleResponse` | src/server/core/calc_tree_node_main.cpp:144-160 | Every kind of response gets the effect the specification gives it |
| `DeathReports.OthersPass` | src/server/core/calc_tree_node_main.cpp:144-160 | A response that is neither an answer nor a heartbeat is passed on and changes nothing |
| `CalcNode.CalcTreeNode.ExecuteHere` | src/server/core/calc_tree_node_main.cpp:181-187 | The loop adds up the numbers of the command and one good answer with that sum goes to the ancestor |
| `Messages.SumOfOne` | src/server/core/calc_tree_node_main.cpp:181-187 | The sum of one number is that number |
| `Messages.SumOfBoth` | src/server/core/calc_tree_node_main.cpp:181-187 | The sum of two lists one after the other is the sum of their sums, which with the row before fixes the answer to every exec |
| `CalcNode.CalcTreeNode.HandleExec` | src/server/core/calc_tree_node_main.cpp:118-126 | Answers here exactly when this is a node with the id, otherwise copies to all children and one new record |
| `CalcNode.CalcTreeNode.GetProcessPidByNodeId` | src/server/core/calc_tree_node_main.cpp:269-276 | The pid of the first child with the id, or a throw when no child has it |
| `NodeSpec.PidFirst` | src/server/core/calc_tree_node_main.cpp:269-276 | The pid is that of the first child with the id |
| `CalcNode.CalcTreeNode.TryPushBackNewNode` | src/server/core/calc_tree_node_main.cpp:195-204 | A failed fork gives one bad answer and no child; otherwise the child is appended and its pid reported |
| `CalcNode.CalcTreeNode.HandleCreate` | src/server/core/calc_tree_node_main.cpp:103-116 | The three cases in the order of the code: own id, own child, pass on with a new record |
| `CalcNode.CalcTreeNode.HandleKillSignal` | src/server/core/calc_tree_node_main.cpp:128-131 | Every child gets the signal and the loop flag is cleared |
| `CalcNode.CalcTreeNode.RedirectToNodes` | src/server/core/calc_tree_node_main.cpp:284-292 | All children get the message, or the dead end answers when there are none |
| `CalcNode.CalcTreeNode.HandleDeadEnd` | src/server/core/calc_tree_node_main.cpp:162-179 | The dead end of each kind of command answers with its bad response, the ids of a create the other way round; other messages get none |
| `Leftovers.DeadEndAnswers` | src/server/core/calc_tree_node_main.cpp:162-179 | A process without children answers an exec and a create with the bad response, the ids of the latter the other way round, and a print command not at all |
| `CalcNode.CalcTreeNode.CheckHeartbeat` | src/server/core/calc_tree_node_main.cpp:216-225 | The erasing walk over the child list removes exactly the children that the sweep specification picks, reports each of them once and sends each its kill signal |
| `CalcNode.CalcTreeNode.HandleOrder` | src/server/core/calc_tree_node_main.cpp:95-101 | Commands and kill signals get the effect of the specification |
| `Records.CountedOf` | src/server/core/server_entity/calc_tree_node.hpp:14-32 | Counting changes only the first record of the type of the response: seen through the records of one type the list loses its head or gets a head with one more count, the other type is untouched |
| `SingleCommand.Step` | src/server/core/calc_tree_node_main.cpp:227-261 | In any tree with one command under way, which one process says yes to if all records of the type are fresh and none does if earlier commands have left records they had begun to count in, no move of any process changes how many good and bad answers any subtree still owes its parent |
| `SingleCommand.RunKeeps` | src/server/core/calc_tree_node_main.cpp:284-302 | The same over every run, together with the invariant |
| `SingleCommand.LookupSafe` | src/server/core/calc_tree_node_main.cpp:298-302 | In every reachable state the response at the head of a link finds a record |
| `OneAnswer.ExecAnsweredOnce` | src/server/core/server_entity/calc_tree_dummy.hpp:195-212 | Exec on any idle tree with distinct ids: in every interleaving never more than one answer, exactly one at rest, the sum if some node has the id and the bad answer otherwise |
| `OneAnswer.CreateAnsweredOnce` | src/server/core/server_entity/calc_tree_dummy.hpp:213-229 | Create with a fresh id: exactly one answer, good exactly when the parent exists and the fork works; the ids of the bad answer are the other way round, as pushed by the code |
| `OneAnswer.AtMostOneAnswer` | src/server/core/calc_tree_node_main.cpp:227-261 | For either command on a tree at rest, with fresh records or, where nobody says yes, any records: the link to the client is empty or holds exactly the answer that is due, at every moment, and at rest holds it if one is due |
| `OneAnswer.PrintIsDropped` | src/server/core/calc_tree_node_main.cpp:95-101 | A print command is taken off the link and has no effect in the tree |
| `Growth.CreateGrowsTree` | src/server/core/calc_tree_node_main.cpp:195-204 | At rest the new node is the last child of its parent and nothing else has changed, or nothing has changed at all; the answer says which; ids stay distinct |
| `Growth.StepPlan` | src/server/core/calc_tree_node_main.cpp:103-116 | The shape the tree will have once the command is through is the same before and after every move, whatever the records are |
| `Liveness.CommandIsLive` | src/server/core/calc_tree_node_main.cpp:41-61 | A run with one command on a tree at rest, with fresh records or, where nobody says yes, any records, is bounded by the tree and the heartbeats sent, no lookup in it fails, and until it is at rest some message can be handled |
| `RecordsAfter.RecordsFreshIff` | src/server/core/calc_tree_node_main.cpp:236-243 | At rest all records of the type are fresh again exactly when, at every process on the way from the node that answered up to the manager, the good answer was the last response counted; without a good answer always |
| `NextCommand.CommandAtRest` | src/server/core/calc_tree_node_main.cpp:227-261 | Exec, or create with a fresh id, on any tree at rest whatever earlier commands have left in its records: which answers the client can have got at any moment and at rest, that no lookup fails unless one can, that the run is bounded, and that at rest the tree is at rest again and has the planned shape |
| `NextCommand.ServedRightIff` | src/server/core/server_entity/calc_tree_dummy.hpp:195-229 | Every run makes all its lookups succeed and ends with one answer, good if a process says yes and bad if none does, if and only if no process on the way can lose its record and the records let a bad answer through to the client where nobody says yes and nowhere else |
| `NextCommand.ExecAtRest` | src/server/core/server_entity/calc_tree_dummy.hpp:195-212 | In terms of ids, for exec: without a node of the id the client gets the bad answer once, in every run, exactly if the records let it through; with one it gets the good answer, before it perhaps a bad one; only the second can make a lookup fail |
| `NextCommand.ExecLookupCanFailIff` | src/server/core/calc_tree_node_main.cpp:298-302 | Some run of an exec makes a lookup fail if and only if on the way to its node some process without an exec record can get a bad answer from all its children, from the one on the way before the good one |
| `NextCommand.ExecTwoAnswersIff` | src/server/core/calc_tree_node_main.cpp:227-243 | Where none can, some run gives the client two answers to one exec if and only if a node has the id and the tree can give a bad answer |
| `NextCommand.ExecServedRightIff` | src/server/core/server_entity/calc_tree_dummy.hpp:195-212 | An exec is answered in every run once, good exactly if a node has the id, without a failing lookup: if and only if the condition on the records holds |
| `NextCommand.CreateAtRest` | src/server/core/server_entity/calc_tree_dummy.hpp:213-229 | The same for create with a fresh id: which answers can come, when lookups are safe, and that the node has been added exactly if the parent exists and the fork works |
| `NextCommand.CreateServedRightIff` | src/server/core/server_entity/calc_tree_dummy.hpp:213-229 | When every run of a create with a fresh id is answered right |
| `NextCommand.CommandGoesOn` | src/server/core/calc_tree_node_main.cpp:41-61 | Where no lookup can fail, some message can be handled until nothing is under way |
| `HitWay.HitStep` | src/server/core/calc_tree_node_main.cpp:227-243 | A command that one process says yes to, among records of earlier ones: no move changes how many good answers a process on the way owes or adds to the bad ones it can still give, one at most, and never behind the good one |
| `HitRuns.HitAnswers` | src/server/core/calc_tree_node_main.cpp:227-243 | Such a command gives the good answer, before it perhaps a bad one if the records allow that, in every interleaving |
| `HitRuns.HitLookupCanFailIff` | src/server/core/calc_tree_node_main.cpp:298-302 | And can make a lookup fail exactly under the condition, the failing run being constructed |
| `HitRuns.EarlyBadIff` | src/server/core/calc_tree_node_main.cpp:227-234 | Where it cannot, some run ends with the bad answer in front of the good one exactly if the records allow it |
| `HitRuns.RestAgain` | src/server/core/calc_tree_node_main.cpp:304-310 | Whoever says yes, what the command leaves at rest is again such a tree, with one first record per process that is not full or has seen a good answer and only fresh ones behind it |
| `History.HistoryRests` | src/server/core/calc_tree_node_main.cpp:95-116 | So does every history of exec commands and creates with fresh ids, the records of one type being kept at rest by all commands of the other |
| `History.AfterAnyHistory` | src/server/core/server_entity/calc_tree_dummy.hpp:195-229 | After any history from the start of the program: the next command is served right in every run if and only if the condition on the records holds |
| `Unanswered.SecondExecAnsweredIff` | src/server/core/server_entity/calc_tree_dummy.hpp:195-212 | Two exec commands one after the other on a tree without old records: in every run of the second that comes to rest there is an answer to it, and then only one, if and only if a node has its id or, for the first command, the good answer was the last response counted at every process on its way to the client |
| `Unanswered.SecondExecSafe` | src/server/core/calc_tree_node_main.cpp:298-302 | No run of that second command makes a lookup fail |
| `Unanswered.RestIsAtRest` | src/server/core/calc_tree_node_main.cpp:236-243 | What the first one leaves is a tree at rest, of the same shape, whose begun records have all seen a good answer |
| `Unanswered.FreshOrStuck` | src/server/core/calc_tree_node_main.cpp:304-310 | After it a process is left with fresh exec records or with a full first record that has seen a good answer |
| `Unanswered.LaterMissesUnanswered` | src/server/core/server_entity/calc_tree_dummy.hpp:195-212 | If it is the manager that is left with such a record, no failing exec among any number of later commands, overlapped in any way, is ever answered, in any run in which the manager gets no further child |
| `InTurn.ServeReaches` | src/server/core/calc_tree_node_main.cpp:227-261 | On a tree with at most two children per process some run does to it what the function says that serves the command child by child |
| `Inputs.SecondExecUnanswered` | src/server/core/server_entity/calc_tree_dummy.hpp:195-212 | An input: after some run of exec 1 on a manager with the nodes 1 and 2, exec 9 is answered in no run at all |
| `Inputs.SecondCreateUnanswered` | src/server/core/server_entity/calc_tree_dummy.hpp:213-229 | An input: after some run of create 5 1 on the same tree, create 6 9 is answered in no run at all |
| `Inputs.TwoAnswers` | src/server/core/calc_tree_node_main.cpp:227-243 | An input: runs of exec 4, exec 9 and exec 4, where the last command gets a bad answer and then the good one |
| `Inputs.AnsweredAgain` | src/server/core/calc_tree_node_main.cpp:227-234 | An input: runs of exec 4, exec 9 and exec 9, the second not answered and the third answered |
| `Inputs.LookupLost` | src/server/core/calc_tree_node_main.cpp:298-302 | An input: exec 5, exec 3, exec 2, all answered well, then exec 2 again, in some run of which a record is looked up that is not there |
| `ExistingIdRuns.LookupCanFailIff` | src/server/core/calc_tree_node_main.cpp:263-302 | A create for an id that exists, under a parent that does not, on any idle tree: some run makes a process look up a record that is not there if and only if some process between the manager and the node with the id has at least two children and no create record left over |
| `ExistingIdRuns.ExistingAnsweredOnce` | src/server/core/calc_tree_node_main.cpp:103-116 | When no such process is there: in every interleaving the client gets one answer, that the node exists, and never another |
| `ExistingIdRuns.ReachesFailure` | src/server/core/calc_tree_node_main.cpp:263-302 | The run that does it: the answer NodeExist passes up before another child has given its bad answer |
| `ExistingId.WayStep` | src/server/core/calc_tree_node_main.cpp:227-267 | No move changes how many NodeExist answers the processes on the way still owe, and the bad answers of the children off the way never fill a record |
| `AllMiss.MissesAllAnswered` | src/server/core/server_entity/calc_tree_dummy.hpp:195-202 | Any number of exec commands for absent ids, overlapped in any way on any stable tree: never more answers than commands, all bad, as many as commands at rest, and the ledger of every process balances at every moment |
| `AllMiss.MissesAreLive` | src/server/core/calc_tree_node_main.cpp:227-234 | Such runs are bounded and never stuck before everything is answered |
| `AllMiss.Step` | src/server/core/calc_tree_node_main.cpp:227-234 | No move changes how many bad answers a subtree still has to deliver, a division by the numbers of children all the way down |
| `AllMiss.LedgerHolds` | src/server/core/calc_tree_node_main.cpp:304-310 | Bad answers taken are the number of children times those passed on plus the count of the first record, which is below the number of children; all later records are fresh |
| `AllMiss.RestFresh` | src/server/core/calc_tree_node_main.cpp:227-234 | At rest all exec records are fresh |
| `ChainResults.ChainIsLinearizable` | src/server/core/calc_tree_node_main.cpp:103-126 | On a chain any pipelined commands that keep it a chain: in every interleaving the commands equal answers plus what is under way, no lookup fails, and at rest the answers and the chain are those of serving the commands one after the other |
| `Chain.Step` | src/server/core/calc_tree_node_main.cpp:227-267 | No move changes the ids, the answers or the number of commands that a state of the chain amounts to once everything under way is dealt with, older commands first |
| `Chain.RunKeeps` | src/server/core/calc_tree_node_main.cpp:284-302 | The same over every run |
| `ChainResults.ExecServed` | src/server/core/calc_tree_node_main.cpp:118-126 | The sequential specification: an exec is answered with the sum exactly when a node below the manager has the id |
| `ChainResults.CreateServed` | src/server/core/calc_tree_node_main.cpp:103-116 | The sequential specification: which create commands succeed, which answer that the node exists, and what they do to the chain |
| `ChainResults.OneAnswerEach` | src/server/core/calc_tree_node_main.cpp:103-126 | The sequential specification answers every command once |
| `ChainResults.ChainRunEnds` | src/server/core/calc_tree_node_main.cpp:41-61 | Runs on a chain are bounded by the commands, the final length and the heartbeats |
| `ChainResults.ChainProgress` | src/server/core/calc_tree_node_main.cpp:41-61 | Until the chain is at rest some message can be handled |
| `KillWave.KillStopsSubtree` | src/server/core/calc_tree_node_main.cpp:128-131 | Once a process has been sent a kill signal, in every run after which all messages are delivered every process of its subtree has stopped |
| `KillWave.WaveGoesOn` | src/server/core/calc_tree_node_main.cpp:284-292 | Until then some process of the subtree can handle an order |
| `KillWave.WaveEnds` | src/server/core/calc_tree_node_main.cpp:284-292 | While only kill signals are under way downwards, a run takes no more moves, stopping, exits and erased handles included, than a measure on the processes, the handles and the responses under way and the heartbeats and sweeps meanwhile allow |
| `KillWave.ExitGoesOn` | src/server/core/calc_tree_node_main.cpp:80-83 | Until every process of the subtree has exited, some process can handle an order or exit |
| `KillWave.KillsExactly` | src/server/core/server_entity/calc_tree_node.hpp:82-85 | At every moment of every run of a tree in which nobody had been killed: none, one or three signals have crossed a link whose parent runs, has stopped or has exited; one, or two in the last pass of the loop, if the handle was erased |
| `KillWave.AtMostThreeKills` | src/server/core/server_entity/calc_tree_node.hpp:82-85 | At most three kill signals ever cross one link: from the handler, from the destructor of the node, and from the destructor of the handle, a sweep in the last pass of the loop included |
| `KillWave.KilledOnce` | src/server/core/calc_tree_node_main.cpp:63-71 | Each single process runs its kill handler at most once in any run: once if it stops in the run, and never again |
| `KillWave.UntouchedInv` | src/server/core/calc_tree_node_main.cpp:80-83 | Every tree in which no signal has been sent satisfies the invariant these results start from |
| `DeathReports.EveryDeathReportedOnce` | src/server/core/calc_tree_node_main.cpp:216-225 | Over every run, also with sweeps and stops, the death reports on their way or delivered are those there were before plus one for each child handle erased anywhere |
| `DeathReports.ReportsInOrder` | src/server/core/calc_tree_node_main.cpp:216-225 | The reports of one sweep name the erased children in the order of the list |
| `DeathReports.ClientHearsOfEveryDeath` | src/server/core/server_entity/calc_tree_dummy.hpp:182-192 | When no report is left below the manager, the client has got exactly one report for each erased child, as a multiset of ids |
| `DeathReports.BeatsStayLocal` | src/server/core/calc_tree_node_main.cpp:133-142 | Heartbeats on a link come from the process at its lower end only: no process relays one |
| `RecordLife.RecordLifetime` | src/server/core/calc_tree_node_main.cpp:227-243 | Feeding n responses to a fresh record of a process with n children passes on all good ones in order, or only the last bad one if none is good; the record goes exactly when there was no good one or the last was good |
| `RecordLife.RecordFills` | src/server/core/server_entity/calc_tree_node.hpp:23-30 | Before it is full a record counts every response and only good ones pass |
| `RecordLife.StuckLosesBadAnswers` | src/server/core/calc_tree_node_main.cpp:304-306 | A process whose first exec record is full and has seen a good answer never passes on a bad exec answer again, in any run in which it gets no further child |
| `Leftovers.LeftoversUnobservable` | src/server/core/calc_tree_node_main.cpp:298-310 | Two processes whose record lists differ by any number of fresh records at the end push the same messages in every history in which the shorter list never lacks a record |
| `Leftovers.EventBoth` | src/server/core/calc_tree_node_main.cpp:227-267 | Every single event, a change of the child list included, keeps that relation |
| `Leftovers.DeadEndLeaves` | src/server/core/calc_tree_node_main.cpp:123-124 | A dead end leaves exactly one such fresh record behind |
| `Lookups.LookupsSucceed` | src/server/core/calc_tree_node_main.cpp:298-302 | From fresh records, every lookup succeeds in every history in which responses of a type never outnumber the copies sent and in which the old create records make up for every NodeExist, which takes away a record that stood for all children; the child list may grow at any time |
| `Lookups.EveryOrderSafeIff` | src/server/core/calc_tree_node_main.cpp:263-302 | A process with n children and m fresh create records: e answers NodeExist and b bad answers find their records in every order if and only if e n + b is at most m n |
| `Lookups.NodeExistTakesRecordAway` | src/server/core/calc_tree_node_main.cpp:263-267 | Right after a NodeExist answer to the last command the next create answer finds a record if and only if there was one before that command |
| `SweepRuns.Decompose` | src/server/core/calc_tree_node_main.cpp:216-225 | Every child list is a sequence of runs of late children with a live one after each, and perhaps a run at its end: the sweep results are about every list |
| `SweepRuns.SweepHalvesRuns` | src/server/core/calc_tree_node_main.cpp:216-225 | With a last child that is alive, one sweep leaves floor(L/2) children of every maximal run of L late ones |
| `SweepRuns.PastTheEndIff` | src/server/core/calc_tree_node_main.cpp:217-223 | The sweep steps past the end of the list exactly when the run of late children at its end has odd length |
| `SweepRuns.SweepsRemoveAllIff` | src/server/core/server_entity/calc_tree_dummy.hpp:182-192 | k sweeps remove all late children if and only if the longest run is shorter than 2 to the power k |
| `SweepRuns.ErasedAreLate` | src/server/core/calc_tree_node_main.cpp:220-222 | Only late children are erased |
| `SweepRuns.ErasedIff` | src/server/core/calc_tree_node_main.cpp:217-223 | Exactly the first, third, fifth and so on of every run of late children are erased |
| `SweepRuns.PickParts` | src/server/core/calc_tree_node_main.cpp:216-225 | Erased and surviving children together are the children there were |
| `SweepRuns.PickInOrder` | src/server/core/calc_tree_node_main.cpp:216-225 | Survivors, and reports, keep their order |
| `Heartbeats.LateIff` | src/server/core/calc_tree_node_main.cpp:216-221 | With first-in first-out links, clocks that do not run backwards and distinct ids a child is late exactly when every heartbeat handled from it is older than the period, or, none having been handled, its start is |
| `Heartbeats.ErasedAreSilent` | src/server/core/calc_tree_node_main.cpp:220-222 | A child erased at time T has no handled heartbeat stamped at T minus the period or later |
| `Heartbeats.BeatsAscend` | src/server/core/calc_tree_node_main.cpp:46-46 | Time stamps ascend along a link |
| `HeartbeatRuns.HandledIsHandler` | src/server/core/calc_tree_node_main.cpp:133-156 | The event in which the parent handles a heartbeat is the handler of responses on that heartbeat |
| `HeartbeatRuns.StartedIsHandler` | src/server/core/calc_tree_node_main.cpp:195-204 | The event in which a child starts is the handler of an accepted create command |
| `HeartbeatRuns.EventsHappen` | src/server/core/calc_tree_node_main.cpp:41-61 | Whatever the other processes are doing, a running node can send, a response at the head of a link can be handled if it finds its record, and a sweep is possible exactly if it does not step past the end of the list |
| `HeartbeatRuns.RunIsHistory` | src/server/core/calc_tree_node_main.cpp:41-61 | In every run of a whole tree that begins with a process without children and gives no id to two of its children, whatever else goes on, the children it has, with their stamps, are those after the starts, heartbeats and sweeps of the run |
| `HeartbeatRuns.LateInRun` | src/server/core/calc_tree_node_main.cpp:216-221 | So in every such run with clocks that do not run backwards a child is late exactly when every heartbeat handled from it, or else its start, is older than the period |
| `HeartbeatRuns.ErasedInRun` | src/server/core/calc_tree_node_main.cpp:220-222 | And a sweep in it erases no child with a handled heartbeat within the period |
| `Fields.SplitUndoesJoin` | lib/infrastructure/message/aux_ser_funcs.hpp:44-53 | The cursor reader returns exactly the joined fields in order, ends at the length of the text and then yields empty fields |
| `Fields.JoinedStartsAtZero` | lib/infrastructure/message/aux_ser_funcs.hpp:36-38 | Without a brace in the text the start offset is 0 |
| `Fields.UnframeFrame` | lib/infrastructure/message/aux_ser_funcs.hpp:8-16 | Taking the type off a framed text gives back name and body, whatever braces the body has |
| `Fields.UnframeIs` | lib/infrastructure/message/aux_ser_funcs.hpp:8-16 | On any text: without a brace there is no name, the last character after the first brace goes whatever it is, and a brace at the end leaves nothing |
| `Fields.ReadInTwo` | lib/infrastructure/message/aux_ser_funcs.hpp:61-66 | Reading fields can be cut anywhere: the cursor carries everything that matters |
| `Decimal.NumberOfDigits` | lib/infrastructure/message/aux_ser_funcs.hpp:19-21 | Reading decimal digits gives back the number that was printed |
| `Decimal.ReadDigits` | lib/infrastructure/message/aux_ser_funcs.hpp:55-60 | An integer of any size read into a type with a greatest value comes back clamped, the stream failing exactly when it was too great |
| `Decimal.ReadFixed` | lib/infrastructure/message/aux_ser_funcs.hpp:55-60 | A printed number reads back as the number rounded to six decimals |
| `WireTexts.FixedIs` | lib/infrastructure/message/aux_ser_funcs.hpp:19-21 | A number is printed as a minus sign if it is negative, the whole part, a point and six digits |
| `TextStream.WholeWordIff` | lib/infrastructure/message/aux_ser_funcs.hpp:55-60 | A text read as one word comes back whole exactly when it has no white space |
| `Rounding.SnapNearest` | lib/infrastructure/message/aux_ser_funcs.hpp:19-21 | No multiple of a millionth is nearer to a number than what its text stands for |
| `Rounding.TiesToEven` | lib/infrastructure/message/aux_ser_funcs.hpp:19-21 | Half way between two multiples the even one is taken |
| `Rounding.SnapNear` | lib/infrastructure/message/aux_ser_funcs.hpp:26-28 | Writing and reading moves a number by at most half a millionth |
| `Rounding.SnapFixesExact` | lib/infrastructure/message/aux_ser_funcs.hpp:26-28 | It leaves a number alone exactly when that is a multiple of a millionth |
| `Rounding.SnappedTwice` | lib/infrastructure/message/request/commands/command_exec.hpp:40-60 | Rounding the numbers of an exec twice is rounding them once |
| `Rounding.SumExact` | src/server/core/calc_tree_node_main.cpp:181-187 | A sum of rounded numbers needs no rounding |
| `Rounding.SumNear` | src/server/core/calc_tree_node_main.cpp:181-187 | Rounding n numbers moves their sum by at most n half millionths |
| `RoundTrip.CommandBack` | lib/infrastructure/message/request/commands/serialization.hpp:11-44 | Every command comes back with ids clamped to 16 bits, numbers rounded and, beyond the greatest 64-bit count, numbers cut off |
| `RoundTrip.ResponseBack` | lib/infrastructure/message/response/serialization.hpp:9-62 | Every response comes back with ids clamped to 64 bits, the sum rounded and the time wrapped |
| `RoundTrip.TimeBits` | lib/infrastructure/message/response/calc_tree_resps/heartbeat.hpp:56-64 | A time survives the two conversions exactly when it fits a signed 64-bit count |
| `AuthorizationText.AuthorizationBackIff` | lib/infrastructure/message/request/authorization/authorization_with_name.hpp:36-49 | Endpoint and name come back exactly when both are free of braces, commas and white space |
| `AuthorizationText.SomeNamesAreRejected` | lib/infrastructure/message/aux_ser_funcs.hpp:44-53 | With a certain name the message is not merely changed but rejected, the cursor having passed the end |
| `WireTheorems.RoundTripIff` | lib/infrastructure/message/message.hpp:27-33 | A message survives being written and read exactly when its integers fit their types, its numbers are multiples of a millionth and its texts have no separators |
| `WireTheorems.EncodeInjective` | lib/infrastructure/message/message.hpp:27-33 | No two such messages have the same text |
| `WireTheorems.TravelExec` | lib/infrastructure/message/request/commands/command_exec.hpp:40-60 | Over any number of hops the numbers of an exec are those of the first hop |
| `WireTheorems.TravelRepresentable` | lib/infrastructure/message/serialization.hpp:40-45 | A representable message is unchanged after any number of hops |
| `WireTheorems.AnswerIsNear` | lib/infrastructure/message/response/calc_tree_resps/good_exec_resp.hpp:30-43 | The answer to an exec with n numbers differs from the true sum by at most n half millionths, whatever the depth of the node |
| `WireTheorems.AcceptedNames` | lib/infrastructure/message/serialization.hpp:10-21 | A text is accepted only if the type names in all its layers are those of the message it is read as |
| `WireTexts.ResponseText` | lib/infrastructure/message/response/response.hpp:24-28 | The exact text of every response: names of the three layers, fields in order, comma and blank between them |
| `WireTexts.CommandText` | lib/infrastructure/message/request/commands/command.hpp:22-26 | The exact text of every command |
| `WireTexts.AuthorizationWire` | lib/infrastructure/message/request/authorization/authorization.hpp:28-32 | The exact text of the authorization |
| `WireTexts.KillText` | lib/infrastructure/message/calc_tree_msgs/kill_signal.hpp:30-33 | The exact text of the kill signal |
| `WireTexts.SomeMessage` | lib/infrastructure/message/response/calc_tree_resps/good_create_resp.hpp:38-47 | One message written out, digits included |
| `MessageText.Writer.Serialize` | lib/infrastructure/message/message.hpp:27-33 | The successive appends of all layers produce the specified text |
| `MessageText.Writer.SerializeExec` | lib/infrastructure/message/request/commands/command_exec.hpp:52-60 | The writing loop produces id, count and all numbers as one field list in a frame |
| `MessageText.Writer.SerializeCreate` | lib/infrastructure/message/request/commands/command_create.hpp:36-41 | Appends the frame of a create command with its two ids |
| `MessageText.Writer.SerializeCommandRequest` | lib/infrastructure/message/request/commands/command.hpp:22-26 | Appends the request and command frames around any command |
| `MessageText.Writer.SerializeAuthorizationRequest` | lib/infrastructure/message/request/authorization/authorization.hpp:28-32 | Appends the request and authorization frames around endpoint and name |
| `MessageText.Writer.SerializeAuthorization` | lib/infrastructure/message/request/authorization/authorization_with_name.hpp:44-49 | Appends endpoint and name as one field list in a frame |
| `MessageText.Writer.SerializeFields` | lib/infrastructure/message/response/calc_tree_resps/good_exec_resp.hpp:38-43 | Appends any list of fields in a frame, whatever the kind of response |
| `MessageText.Writer.SerializeResponse` | lib/infrastructure/message/response/response.hpp:24-28 | Appends the response frame around any response |
| `MessageText.Writer.SerializeKillSignal` | lib/infrastructure/message/calc_tree_msgs/kill_signal.hpp:30-33 | Appends the empty frame of the kill signal |
| `MessageText.Reader.FindStartOfClassVars` | lib/infrastructure/message/aux_ser_funcs.hpp:36-38 | Moves the cursor behind the first brace, or to 0 |
| `MessageText.Reader.DeserializeCreate` | lib/infrastructure/message/request/commands/command_create.hpp:28-33 | Reads the two ids, or throws |
| `MessageText.Reader.DeserializeCommand` | lib/infrastructure/message/request/commands/serialization.hpp:11-44 | The dispatch over command types reads what the specification says and throws for unknown names |
| `MessageText.Reader.DeserializeAuthorization` | lib/infrastructure/message/request/authorization/serialization.hpp:10-31 | Reads endpoint and name, or throws for another type name |
| `MessageText.Reader.DeserializeRequest` | lib/infrastructure/message/request/serialization.hpp:9-33 | The dispatch over request types reads what the specification says and throws for unknown names |
| `MessageText.Reader.DeserializeAnswer` | lib/infrastructure/message/response/authorization_response/serialization.hpp:9-33 | The dispatch over authorization responses |
| `MessageText.Reader.ExtractType` | lib/infrastructure/message/aux_ser_funcs.hpp:8-16 | Splits off the type name and leaves the body without its last character, with the wrap-around of the length when nothing follows the brace |
| `MessageText.Reader.GetNextVarString` | lib/infrastructure/message/aux_ser_funcs.hpp:44-53 | Returns the field at the cursor and moves the cursor, or throws when the cursor is beyond the end |
| `MessageText.Reader.DeserializeExec` | lib/infrastructure/message/request/commands/command_exec.hpp:40-49 | The reading loop yields as many numbers as the count says, or throws at the first field that is not there |
| `MessageText.Reader.DeserializeResponse` | lib/infrastructure/message/response/serialization.hpp:9-62 | The two-step dispatch over nine kinds reads what the specification says |
| `MessageText.Reader.Deserialize` | lib/infrastructure/message/serialization.hpp:40-45 | The whole reader agrees with the specification on every text |
| `ConcurrentQueue.Queue.TryPop` | lib/infrastructure/connection_wrapper/concurrent_queue.hpp:85-95 | Takes the front, or throws and changes nothing when the queue is empty |
| `ConcurrentQueue.Queue.WaitAndPop` | lib/infrastructure/connection_wrapper/concurrent_queue.hpp:97-126 | The two waiting loops, for any sequence of wake-ups and of pushes meanwhile, have the outcome and leave the queue of the specification |
| `ConcurrentQueue.WaitingConserves` | lib/infrastructure/connection_wrapper/concurrent_queue.hpp:109-126 | Waiting loses nothing: what is popped and what remains is in order what there was and what came in |
| `ConcurrentQueue.GaveUpIff` | lib/infrastructure/connection_wrapper/concurrent_queue.hpp:114-121 | Waiting with a limit gives up exactly at the first time-out that uses the limit up while nothing had come in before that wait |
| `ConcurrentQueue.WaitingEnds` | lib/infrastructure/connection_wrapper/concurrent_queue.hpp:109-126 | The first wait that brings something or uses up the limit decides the outcome and the queue that is left |
| `ConcurrentQueue.PoppedIff` | lib/infrastructure/connection_wrapper/concurrent_queue.hpp:97-126 | A value is popped, and which queue is left, exactly if it is the head of the queue or, the queue being empty, the first thing to come in by a wait that does not give up |
| `ConcurrentQueue.StillWaitingIff` | lib/infrastructure/connection_wrapper/concurrent_queue.hpp:97-107 | It waits on exactly as long as the queue is empty, nothing has come in and the limit is not used up |
| `Pipeline.FirstInFirstOut` | lib/infrastructure/connection_wrapper/push_queue.hpp:83-94 | In every interleaving the pushed messages are, after decoding, the pulled ones, the receive queue, the receiver's hand, the wire, the dispatcher's hand and the send queue, in this order; the pulled ones are a prefix |
| `Pipeline.RunKeeps` | lib/infrastructure/connection_wrapper/pull_queue.hpp:87-105 | Every step of every thread keeps that, stopping included |
| `Pipeline.DispatcherNeverBlocks` | lib/infrastructure/connection_wrapper/push_queue.hpp:83-94 | Having seen the queue not empty the dispatch thread never waits in wait_and_pop |
| `Pipeline.StoppedHasSent` | lib/infrastructure/connection_wrapper/push_queue.hpp:68-71 | When stop() has returned everything has been sent if and only if the queue is empty, and what had been pushed when a draining caller last found the queue empty has been sent in any case |
| `Pipeline.DrainingStopSendsAll` | lib/infrastructure/connection_wrapper/push_queue.hpp:63-66 | With no concurrent pushes everything ever pushed has been sent once stopWhenQueueEmpty() has returned |
| `Pipeline.ClearedFlagEnds` | lib/infrastructure/connection_wrapper/push_queue.hpp:83-94 | With the flag cleared the dispatch loop takes at most four more steps in any run, and after four it has ended |
| `Pipeline.DrainProgress` | lib/infrastructure/connection_wrapper/push_queue.hpp:63-66 | While a caller drains and nobody pushes, in any run the queue is empty or nearer to being empty by the number of steps of the dispatch loop |
| `Pipeline.DrainingEnds` | lib/infrastructure/connection_wrapper/push_queue.hpp:63-66 | After four steps of that loop for every message in the queue, and three more, it is empty |
| `Delivery.PulledAre` | lib/infrastructure/connection_wrapper/pull_queue.hpp:30-32 | After any run from the start the consumer has pulled exactly the first messages that the producers pushed, decoded, as many as it made pulls |
| `Delivery.AtAnyTime` | lib/infrastructure/connection_wrapper/pull_queue.hpp:30-32 | A producer can push at any time, a consumer can pull exactly when something has been received |
| `Delivery.BothRun` | lib/infrastructure/connection_wrapper/push_queue.hpp:53-60 | From the start both loops run and all queues are empty |
| `Delivery.ReceiveProgress` | lib/infrastructure/connection_wrapper/pull_queue.hpp:87-98 | While nothing more is sent, every step of the receive loop with a text that has arrived brings it nearer to an empty wire; a poll that comes too early costs it one |
| `Delivery.ReceivingDelivers` | lib/infrastructure/connection_wrapper/pull_queue.hpp:87-105 | After three such steps for every text on the wire, three more and one for every such poll, everything sent has been decoded and is pulled or in the receive queue |
| `Delivery.ReceiverNeverBlocks` | lib/infrastructure/connection_wrapper/pull_queue.hpp:87-98 | Until it has ended the receive loop can always take its next step, whether a text has arrived or not |
| `Delivery.ReceivingEnds` | lib/infrastructure/connection_wrapper/pull_queue.hpp:74-77 | With its flag cleared the receive loop takes at most three more steps, and after three it has ended |
| `Delivery.StopReturns` | lib/infrastructure/connection_wrapper/push_queue.hpp:68-71 | stop() takes two steps: the first clears the flag, and with the second it has returned |
| `Delivery.StopGoesOn` | lib/infrastructure/connection_wrapper/push_queue.hpp:68-79 | Until it has returned it, or a dispatch loop with its flag cleared, can go on |
| `Delivery.EverythingArrives` | lib/infrastructure/connection_wrapper/push_queue.hpp:63-94 | From end to end: once the draining stop has returned and the receive loop has gone on long enough, what was pushed, decoded, is pulled or in the receive queue |
| `MessageQueues.MessagesInOrder` | lib/infrastructure/connection_wrapper/pull_queue.hpp:30-36 | With the real wire format and representable messages the pulled ones are a prefix of the pushed ones, and all of them when nothing is under way |
| `MessageQueues.EveryMessageArrives` | lib/infrastructure/connection_wrapper/pull_queue.hpp:87-105 | The same with the real wire format: all representable messages come out, in order |
| `ClientParser.Parser.Parse` | src/client/client_entity/parser/parser.hpp:16-29 | The result is that of the first type in the list whose attempt succeeds, and after every call, failed or not, the parser is as new |
| `ClientParser.Parser.TryParse` | src/client/client_entity/parser/parser.hpp:43-56 | An attempt that throws changes no field |
| `ClientParser.Parser.ReadReals` | src/client/client_entity/parser/parser.hpp:104-109 | The reading loop yields the numbers, or throws at the first that is missing |
| `ClientParser.Parser.TryParseExec` | src/client/client_entity/parser/parser.hpp:111-124 | Id, count and numbers are read in turn and the attempt throws at the first that cannot be read or when text is left |
| `ClientParser.FirstSuccessIff` | src/client/client_entity/parser/parser.hpp:16-29 | A command is the result exactly when some type in the list parses the line to it |
| `ClientParser.OrderIsIrrelevant` | src/client/client_entity/parser/parser.hpp:17-23 | Lists with the same types give the same result, whatever their order |
| `CommandLines.ExecLine` | src/client/client_entity/parser/parser.hpp:111-124 | An exec line is accepted exactly when id and count fit their types and exactly as many numbers follow as the count says |
| `Numerals.ReadNumeral` | src/client/client_entity/parser/parser.hpp:73-78 | Any number as a user may type it, an optional sign, digits with or without a point, an optional exponent, behind any white space, is read for what it is worth, and what follows is left |
| `Numerals.BareIs` | src/client/client_entity/parser/parser.hpp:73-78 | What it is worth: the digits before the point in full, those behind it for as many places less as there are, both shifted by the exponent |
| `Numerals.ShiftIs` | src/client/client_entity/parser/parser.hpp:73-78 | Shifting by an exponent is multiplying by that power of ten |
| `Numerals.ReadInteger` | src/client/client_entity/parser/parser.hpp:104-109 | Digits without a point, with or without a minus sign, are read as that integer |
| `Numerals.OnlyNumerals` | src/client/client_entity/parser/parser.hpp:73-78 | Wherever a number is read there is such a number, and its worth is what is read |
| `Numerals.ExponentMissing` | src/client/client_entity/parser/parser.hpp:73-78 | An e without digits behind it makes the read fail |
| `TypedLines.ReadWhole` | src/client/client_entity/parser/parser.hpp:73-78 | An integer argument: digits behind an optional sign, accepted exactly if they fit the type, a negative one wrapped around in it |
| `TypedLines.ExecLineIs` | src/client/client_entity/parser/parser.hpp:111-124 | A whole exec line, any white space between, before and after its words and any typed numbers in it: accepted exactly if id and count fit and as many numbers follow as the count says, and then as the command with what they are worth |
| `TypedLines.CreateLineIs` | src/client/client_entity/parser/parser.hpp:91-102 | The same for a whole create line |
| `TypedLines.OnlyLines` | src/client/client_entity/parser/parser.hpp:16-36 | No other line is accepted: it begins with the name of a known command, and the rest are arguments of that command |
| `TypedLines.OnlyExecArguments` | src/client/client_entity/parser/parser.hpp:111-124 | Accepted arguments of exec are an id and a count that fit and as many numbers as the count, and nothing behind them |
| `TypedLines.OnlyCreateArguments` | src/client/client_entity/parser/parser.hpp:91-102 | Accepted arguments of create are two ids that fit, and nothing behind them |
| `TypedLines.PrintedWorth` | src/client/client_entity/parser/parser.hpp:104-109 | A printed decimal is such a number, worth the rounded one |
| `CommandLines.CreateLine` | src/client/client_entity/parser/parser.hpp:91-102 | A create line is accepted exactly when both ids fit 16 bits |
| `CommandLines.ParsePrintIff` | src/client/client_entity/parser/parser.hpp:91-136 | Printing a command as a line and parsing it gives the command back exactly when it is representable |
| `CommandLines.PrintLineIff` | src/client/client_entity/parser/parser.hpp:126-136 | A line of the word print and more, separated by any white space, is accepted, as the print command, exactly when nothing but white space follows the word |
| `CommandLines.PrintTreeIsRejected` | src/client/client_entity/parser/parser.hpp:126-136 | The documented two-word form of that command is rejected |
| `CommandLines.ServerSees` | src/client/client_entity/parser/parser.hpp:32-36 | Whatever line the parser accepts, the server gets that command with its numbers rounded to six decimals; nothing accepted is rejected on the wire |

## Left out

- ZeroMQ sockets, endpoints and address discovery: links are assumed reliable and first-in first-out.
- fork and exec, the start-up wait and real process ids: a fork succeeds with some number or fails.
- Real clocks and sleeps: time is an integer that every clock reading supplies; the polling intervals and the timer that decides when a sweep is due are not modelled.
- IEEE 754 rounding, infinities, NaN, the sign of zero and overflow of doubles: exact reals instead.
- Ids and counters beyond their widths inside a process: ids are natural numbers, their widths matter on the wire and in the parser only; `recievedResponses` does not overflow.
- A lookup that fails, a sweep that steps past the end of the list and a handle erased that way: the behaviour is undefined in the code, so the model stops there. For a sweep, for one process, for the next exec or create with a fresh id after any history, and for one create of an existing id with an absent parent on a tree with fresh records the lemmas say exactly when it comes to that; for commands that overlap on a whole tree, other than failing exec commands, and for create commands with existing ids that follow one another they do not.
- Uniqueness of ids: a process only compares a new id with its own when the command gets to it, so distinct ids are a hypothesis. A create of an existing id whose parent exists too, which can give both a good answer and NodeExist, has no theorem on a general tree.
- History.HistoryRests: commands that create an id a second time, commands that overlap, and children that die between two commands are not among the histories.
- Pipelined exec commands that mix hits and misses on a process with several children: which answer they get is not determined; only misses, chains and single commands have theorems. Of overlapped misses the number of answers is proved; their ids are ids that were asked for, but how often each comes depends on the run, except on a chain.
- Codec.DecodeCommand: a Pass command is answered as an error here. Its time is read by way of a floating-point division and truncated, so that the rounding of doubles decides what comes back, about which exact reals say nothing.
- MessageText.Reader.DeserializeCommand: throws for a Pass command, for that reason.
- MessageText.Reader.DeserializeRequest: the same for a request that holds a Pass command.
- MessageText.Reader.Deserialize: the same for a message that holds one.
- ClientParser.Parser.Parse: treats a pass line as an error, for the same reason.
- ClientParser.Parser.TryParse: the same for one attempt.
- Codec.Uint: an empty numeric field leaves the variable uninitialised in the code; the model gives 0.
- Codec.Double: overflow of a double is not modelled, and an empty field gives 0.
- ConcurrentQueue.Queue.WaitAndPop: the mutex and the condition variable are not modelled; what other threads push while one waits is a parameter, and no other thread pops meanwhile.
- Pipeline.Next: restarting a stopped queue, disconnecting, unloading, and destroying a queue twice.
- The server's and the validator's forwarding, the client's console, its answer formatting and the authorization dialogue: plumbing with only easy members.
- The standalone deserializers of each message class beside the one entry point: they take the same frames apart.
