# GoM in Dafny

GoM is a Go microservice library.  This project models the parts of it that hold protocols and recursive
constructions of their own, and proves what they promise:

- the linked-channel broadcaster (`BroadcastLog`, `BroadcastProtocol`, `BroadcastTheorems`, `BroadcastOutcomes`,
  `BroadcastProgress`, `BroadcastReading`, `BroadcastHeap`);
- the worker pool and its shutdown (`PoolProtocol`, `PoolTheorems`, `PoolProgress`, `PoolServer`);
- the gRPC interceptor that runs calls on the pool (`GrpcInterceptor`, `GrpcProgress`);
- the signal combinators OR and AND (`Signals`, `OrSignal`, `AndSignal`);
- the environment loader (`EnvLoader`, `EnvScan`);
- the SQL statements printed from struct tags (`Crudl`, with `Strings`).

`Sums` and `Options` are helpers.  `dafny verify dfyconfig.toml` checks everything.

## How goroutines are modelled

A concurrent part is a state, a `Step` (or `Move`) type, `Enabled` (or `Can`) and `Apply` (or `Do`).  A step is
the code of one goroutine between two points where it can block or be observed.  A run is any sequence of enabled
steps, so a theorem about runs speaks of every interleaving.  Sending on an unbuffered channel and receiving from
it is one step of both goroutines; a buffered channel is its buffer; an RWMutex is its set of readers and a writer
flag.  Go also keeps new readers out while a writer waits; the models' runs may let them in.  So every run Go has is
a run of the model: safety and bounds on the length of runs carry over.  Two other kinds of result need more.  Where
a result speaks of rest, "nothing can move" leaves out the readers Go would keep waiting
(`BroadcastProgress.AtRest`, `PoolProgress.Quiescent`, `GrpcProgress.AtRest`), so it covers every state that is at
rest in Go.  Where a result says that a call or Close can still return, the run it gives takes the read lock only
while no writer waits.

Progress is stated in two parts.  No run is longer than a bound that grows only with the number of calls
(`PoolProgress.EveryRunSettles`, `GrpcProgress.EveryRunOfTheServerSettles`, `BroadcastProgress.CallsSettle`), and
the states at rest are described exactly; so whatever the scheduler does, that is where calls end up.

The broadcaster is proved in two stages.  `BroadcastLog` is what it is for, with no channels: an append-only log
and one cursor per receiver.  `BroadcastProtocol.StepRefines` shows that whatever step the network of goroutines
takes, the log allows the matching event; everything about values is then proved on the log and carried over.

What a call, a read or a scan is told is stated against what it was called with: the run's own Begin, BeginRead,
Call and Intercept steps, the text of a tag, the environment.  That the states these results speak of are reached at
all, whatever the arguments, is shown by constructed runs (`AListenerHears`, `WhatAReadCanReturn`,
`RunningPoolAcceptsEveryCall`, `NewCallIsAnswered`, `OrCanFire`, `AndCanFire`).

The classes (`BroadcastHeap.Broadcaster`, `BroadcastHeap.Receiver`, `PoolServer.WorkerServer`,
`GrpcInterceptor.JobHandler`, `Crudl.Config`) have the source's fields, except that `WorkerServer` also carries what
lives outside the source's object, so that its state is the step system's: the goroutines (`workers`, `closer`), the
QueueJob calls (`callers`), the job channels closed (`closedChannels`) and the jobs done (`finished`).  The methods
are source functions, or a stretch of a goroutine, run without interruption until they return or have to wait, and
are proved against the same log, step system or specification function.  `EnvScan` runs the loader's loops over an
array it sets in place.

## What does not hold, and exactly when it does

- Close does not always finish.  A Write or Listen that holds the read lock and has yet to hand its value over
  blocks the dispatcher's `mux.Lock` for ever.  Once shutdown has been noticed the dispatcher can return if and
  only if there is no such call, and then it rests nowhere else (`WhenCloseGetsThrough`, with a run in
  `WriteCanBlockClose`).  That deadlock is the only state at rest in which a Write or Listen has not returned
  (`WhenAtRest`).
- QueueJob does not always return.  In a running pool a call can return without somebody calling StopServer if and
  only if it is timed or there is a worker: on zero workers an untimed call waits for ever.  In a stopped pool it can
  if and only if it does not hold the channel of a worker that has left through quit; the timeout covers only the
  wait for a channel (`WhenACallReturns`, with runs in `NoWorkersNoReturn` and `QueueJobCanHang`).
- An intercepted gRPC call does not always return.  Without somebody calling StopServer it can if and only if it is
  not such a QueueJob call and, if it has no handler, has been refused or can be: it has no channel yet, and is timed
  or the server is stopped.  If somebody does call StopServer, only abandoned calls, and calls without a handler that
  have been given a channel, get no result (`WhenACallGetsItsResult`).  At rest the calls that have not returned are
  exactly those abandoned by their worker, those whose nil handler was executed, and in a running server without
  workers those that are not timed (`EveryCallReturns`).
- AND does not always fire when all its inputs have.  It does if and only if their number is not a multiple of
  three (`AndFiresExactlyWhen`, `AndOfThreeNeverFires`).
- Parse does not always report a conversion failure in a nested struct, because sibling goroutines share an error
  variable.  It reports an error under every schedule if and only if a field of the struct itself fails or, for one
  of the two kinds of nested struct, all of that kind must fail (`WhenParseReports`, with a run in
  `FailureCanGoUnreported`).
- A Read's handlers are all applied to the value taken out, not to one another's results; only the last result
  stays behind (`BroadcastLog.Left`).

## Assumptions

One goroutine uses a given Receiver, Close is called once, StartServer once, StopServer once, jobs are not nil, and
the pool's capacity is its number of workers, as the constructor and the option set it.  A read handler is a
function of the value; each Read may bring different ones.  Timeouts may happen at any moment.

## Model

| member | source | states |
|---|---|---|
| BroadcastProtocol.StepRefines | broadcast/broadcaster.go:43-116 | whatever step dispatcher, callers or receivers take, the log with cursors allows the matching event and still agrees with the cells afterwards |
| BroadcastTheorems.RunRefines | broadcast/broadcaster.go:43-116 | every run, under every interleaving, is event by event a run of the log with cursors |
| BroadcastTheorems.EveryRunReadsASlice | broadcast/broadcaster.go:96-111 | with no handlers, what a receiver has read is a gap-free, duplicate-free, ordered slice of the written values starting where it listened |
| BroadcastTheorems.TokenConservation | broadcast/broadcaster.go:47-51 | in every reachable state each cell before the tail has exactly one copy of its message (buffer, dispatcher, one reader's hands, or destroyed), the tail has none, and every copy leads to the next cell |
| BroadcastTheorems.SendsNeverBlock | broadcast/broadcaster.go:50-53 | the dispatcher's send and reply and a reader's put-back are always possible when their turn comes |
| BroadcastTheorems.WhenAReaderCanTake | broadcast/broadcaster.go:99-101 | a waiting receiver can take its message if and only if it is there: not the tail, not pending, not destroyed, not in another reader's hands, whatever happened to other cells |
| BroadcastTheorems.EveryRunChainsHandlers | broadcast/broadcaster.go:98-111 | under every interleaving the successful reads of an entry form a chain: the first gets the written value, each later one the result of its predecessor's last handler on the value that one got, or that value if it had no handlers |
| BroadcastTheorems.EveryRunCountsUp | broadcast/broadcaster.go:98-111 | under every interleaving, n readers with an add-one handler get v, v+1, ..., v+n-1, in sum n*v + n(n-1)/2 |
| BroadcastOutcomes.EveryReadUsesItsOwnHandlers | broadcast/broadcaster.go:98-108 | in every run a read is delivered only if every handler that very Read was called with succeeds on the value taken, and fails only if one of them does |
| BroadcastOutcomes.WhatCallsReturn | broadcast/broadcaster.go:74-94 | a Write or Listen is refused only after Close was called and took effect; an accepted Write has exactly one entry, the value it was called with; a Listen that succeeded has its receiver; every written value is its own Write's |
| BroadcastReading.WhatAReadCanReturn | broadcast/broadcaster.go:98-111 | in every reachable state a receiver whose message is there has a run in which a Read returns the entry's value if its handlers succeed on it, and one in which it fails if they do not |
| BroadcastReading.AReadCanReturnClosed | broadcast/broadcaster.go:112-114 | after Close a Read has a run in which it reports closed and lets go of its cell |
| BroadcastReading.AListenerHears | broadcast/broadcaster.go:46-111 | from every reachable state with the dispatcher at its select, a new Listen, a Write of any v and a Read with handlers that succeed on v can follow, and the Read gets v |
| BroadcastTheorems.RealTimeOrder | broadcast/broadcaster.go:74-94 | a write accepted before Listen begins lies before that receiver's start; one that begins after Listen has its receiver lies at or after it |
| BroadcastTheorems.EarlierWritesAreNeverRead | broadcast/broadcaster.go:74-94 | a value whose Write returned before Listen was called is never read by that receiver |
| BroadcastTheorems.FailedHandlerBlocksItsCell | broadcast/broadcaster.go:102-106 | after a handler fails on a cell, no receiver at or before it ever gets past it, in any continuation |
| BroadcastReading.FailedHandlerSparesTheOthers | broadcast/broadcaster.go:102-110 | after a handler fails, a receiver waiting at another cell can take its message if and only if it could before, and has a run to its delivery if its own handlers succeed |
| BroadcastTheorems.NoSendOnAClosedChannel | broadcast/broadcaster.go:54-61 | no call ever waits to send on a channel that has been closed, since it holds the read lock from its check on |
| BroadcastTheorems.ClosedRefusesEverything | broadcast/broadcaster.go:74-91 | once isClosed is set, a Write or Listen that has not passed its check returns nothing but an error |
| BroadcastProgress.ClosedCallsReturn | broadcast/broadcaster.go:54-91 | once isClosed is set, every call can run to its return, with an error if it has not passed its check |
| BroadcastTheorems.ClosedReceiverStaysClosed | broadcast/broadcaster.go:112-115 | a receiver whose Read reported closed never returns a value again |
| BroadcastProgress.CallsSettle | broadcast/broadcaster.go:43-94 | in every run, calls and dispatcher take at most six steps for each new call and a fixed number besides |
| BroadcastProgress.WhenAtRest | broadcast/broadcaster.go:43-94 | at rest every Write and Listen has returned and the dispatcher is at its select or, after Close, gone; or the dispatcher waits for the lock and a call that holds it waits for the dispatcher; without Close every Write was accepted and every Listen has its receiver |
| BroadcastProgress.WhenCloseGetsThrough | broadcast/broadcaster.go:54-57 | after noticing shutdown the dispatcher can return if and only if no call is between its RLock and its send, and then every run that keeps new readers out rests only at its return |
| BroadcastProgress.WriteCanBlockClose | broadcast/broadcaster.go:86-93 | a run after which Close never takes full effect |
| BroadcastHeap.Broadcaster.Write | broadcast/broadcaster.go:47-51 | on the linked cells, a write fills the tail, links a new one, and is exactly the log's append, or is refused when closed |
| BroadcastHeap.Broadcaster.Listen | broadcast/broadcaster.go:74-83 | a new receiver points to the tail and joins the log at its end, or is refused when closed |
| BroadcastHeap.Receiver.Read | broadcast/broadcaster.go:98-116 | on the linked cells: a value is the cell's, the last handler's result stays behind and the receiver moves on; a failure of a handler empties the cell; closed lets go; it waits, changing nothing, only when there is no message and no shutdown; each is exactly one event of the log |
| BroadcastHeap.RunHandlers | broadcast/broadcaster.go:101-108 | the handler loop succeeds exactly when every handler does on the value taken, and puts back the last one's result on it, or the value when there is none |
| PoolTheorems.ChannelsHaveOneOwner | pool/worker.go:70-94 | a job channel is its worker's own, or in the pool once, or held by exactly one QueueJob call |
| PoolTheorems.RegisteringNeverBlocks | pool/worker.go:74-82 | the pool never exceeds its capacity, and a worker at its registration can always complete it while holding the read lock |
| PoolTheorems.ClosedChannelsAreUnreachable | pool/worker.go:74-82 | nobody holds, and the pool never contains, a closed job channel, and no worker registers into the nil pool |
| PoolTheorems.ExactlyOnce | pool/worker.go:84-98 | QueueJob returned nil if and only if exactly one worker has the job or it is finished, never both, never twice |
| PoolTheorems.ResultsAreFinal | pool/worker.go:134-141 | a call's result never changes, so a refused job is never executed later |
| PoolTheorems.JobsAreConserved | pool/worker.go:122-142 | submitted = pending + executing + finished + refused, with at most MaxWorkers executing |
| PoolTheorems.WhatCallersAreTold | pool/worker.go:122-142 | a QueueJob call waits with a timeout if and only if it was made with one, and fails only if it was or StopServer was called |
| PoolTheorems.FirstInFirstOut | pool/worker.go:81-128 | job channels are taken in the order the workers put them up, and those not taken are in the pool |
| PoolProgress.EveryRunSettles | pool/worker.go:68-142 | no run, stopped or not, is longer than the measure over workers, callers and closer and nine steps for each new call |
| PoolProgress.RunningPoolIsReady | pool/worker.go:70-142 | when nothing can move in a running pool, every worker is at its select with its channel in the pool, every accepted job is finished, and every call has returned, but for the untimed ones when there are no workers |
| PoolProgress.StoppedPoolIsClean | pool/worker.go:75-111 | when nothing can move, waiting readers behind a waiting writer included, all workers have returned, the stopped flag is set, and a call still blocked holds the channel of a worker that left through quit |
| PoolProgress.WhenACallReturns | pool/worker.go:122-142 | without anybody calling StopServer, a QueueJob call of a running pool can return if and only if it has returned, is timed, or there is a worker, and of a stopped pool if and only if it does not hold the channel of a worker that left through quit; if somebody may call StopServer, that last condition alone counts |
| PoolProgress.NoWorkersNoReturn | pool/worker.go:122-142 | a run of an untimed call on zero workers after which it cannot return by itself |
| PoolProgress.RunningPoolAcceptsEveryCall | pool/worker.go:73-142 | in a running pool with a worker, from every reachable state, every call that has not timed out can still be accepted, without StopServer |
| PoolProgress.QueueJobCanHang | pool/worker.go:122-142 | a run of one worker and one call after which QueueJob never returns |
| PoolProgress.LateCallCanBeAccepted | pool/worker.go:105-130 | a run in which a call made after the pool was stopped and set to nil is accepted, its read of the field being stale |
| PoolServer.WorkerServer.StartServer | pool/worker.go:58-114 | fails exactly when the configuration is missing or an option fails on what its predecessors left, else leaves the initial state of the pool with the number of workers the options end with |
| PoolServer.LastSettingWins | pool/worker.go:157-163 | of several SetMaxWorkersOption options the last counts |
| PoolServer.WorkerServer.RegisterOrLeave | pool/worker.go:74-82 | the top of the worker loop is the protocol's four steps: register and wait, or close the channel and exit |
| PoolServer.WorkerServer.CloserBody | pool/worker.go:105-110 | the quit goroutine's critical section is the protocol's five closing steps |
| PoolServer.WorkerServer.QueueJob | pool/worker.go:122-142 | a call takes the first channel and hands its job over, or waits there while that worker is not at its select; or it is refused; or it waits because no case is ready: each as a run of the protocol |
| GrpcInterceptor.RepliesAreNeverCrossed | grpc/server.go:166-181 | an intercepted call that has returned got the result of the handler it was made with on the request it was made with, run exactly once, or the queueing error, the handler not run, which needs a timeout or StopServer |
| GrpcInterceptor.EveryJobIsItsCall | grpc/server.go:167-174 | in every run the k-th job has the k-th intercepted call's own request and handler, and waits with a timeout if and only if that call does |
| GrpcInterceptor.RefusedNeverRuns | grpc/server.go:174-177 | a call refused by the queue never has its handler run, in any continuation |
| GrpcInterceptor.WorkersNeverBlockInExecute | grpc/job.go:37-47 | the capacity-1 reply channel always has room, so a worker never blocks in Execute |
| GrpcProgress.EveryRunOfTheServerSettles | grpc/server.go:166-181 | no run of the server, stopped or not, is longer than its measure and 34 moves for each new call |
| GrpcProgress.EveryCallReturns | grpc/server.go:174-180 | at rest, stopped or running, a call has not returned if and only if its nil handler was executed, or it is handing its job to a worker that has left, or it is untimed on zero workers; every accepted call with a handler has the result of its own handler on its own request, and every refused one, timed or stopped, the error |
| GrpcProgress.WhenACallGetsItsResult | grpc/server.go:166-181 | from every reachable state: the exact condition for a call to get its result without anybody calling StopServer, and the exact condition if somebody may; where it fails no run of that kind gives a result |
| GrpcProgress.NewCallIsAnswered | grpc/server.go:166-181 | from every reachable state of a running server with a worker, a new call with any request and handler has a run in which it returns that handler's result on that request |
| GrpcProgress.NilHandlerCanHang | grpc/job.go:37-40 | likewise a new call with a nil handler has a run after which it never gets a result |
| GrpcInterceptor.JobHandler.Execute | grpc/job.go:37-47 | runs the handler once and replies, or reports a nil handler or channel and does nothing |
| GrpcInterceptor.InterceptCall | grpc/server.go:166-181 | the closure makes, queues and awaits its own job and returns that job's result or the queueing error, or waits, in the queue or for a reply a nil handler never sends |
| OrSignal.OrOnlyFiresOnAnInput | event/combine_signal.go:4-30 | OR never fires on its own, in any run, though its output is fed back into the nested call |
| OrSignal.OrFiresExactlyOnAnInput | event/combine_signal.go:11-28 | at rest OR has fired if and only if some input has, and then every goroutine of the tree has run to its close |
| OrSignal.OrCanFire | event/combine_signal.go:4-30 | for every set of inputs there is a run to rest in which just these fire, and OR fires in it if and only if there are any |
| OrSignal.EveryRunSettles | event/combine_signal.go:12-27 | no run on n channels, inputs firing at any moment, is longer than 3*(n/2) + n steps |
| OrSignal.RunsStayBelowEverySolution | event/combine_signal.go:25 | in every run the closed goroutines lie within every solution of OR's equations |
| OrSignal.RunsEndInASolution | event/combine_signal.go:25 | at rest they are a solution, hence the least one |
| OrSignal.TheEquationsAloneDoNotSay | event/combine_signal.go:25 | on three or more channels the equations also have a solution in which all fire with no input, so least matters |
| AndSignal.AndFiresOnlyOnAll | event/combine_signal.go:33-60 | in no run does AND fire before all inputs have, nor ever on a multiple of three channels |
| AndSignal.AndFiresExactlyWhen | event/combine_signal.go:33-60 | at rest AND has fired if and only if all inputs have and their number is not a multiple of three |
| AndSignal.AndCanFire | event/combine_signal.go:33-60 | for every set of inputs there is a run to rest in which just these fire, and AND fires in it if and only if they are all and no multiple of three |
| AndSignal.AndOfThreeNeverFires | event/combine_signal.go:34-36 | AND of three channels never fires |
| AndSignal.EveryRunSettles | event/combine_signal.go:42-58 | no run on n channels, inputs firing at any moment, is longer than 8*((n+1)/3) + n steps |
| EnvLoader.EverySchedulePureResult | environment/parse.go:146-191 | when every present variable converts, under every schedule, a scan that has returned has done so only after every nested scan at any depth has returned and been joined, reports no error, and has left exactly the pure result: each leaf whose tag names a set variable holds its converted value, and everything else is unchanged |
| EnvLoader.ActionIsRight | environment/parse.go:169-243 | a field fails exactly when the variable named by what precedes its tag's first comma, with the prefix, is set and the field is a struct, cannot be set, is of an unsupported kind or the value does not convert; a leaf becomes the converted value or stays |
| EnvLoader.ScheduleBound | environment/parse.go:146-191 | no schedule of the scan tree is longer than its work |
| EnvLoader.NextMove | environment/parse.go:183 | a scan that has not returned can always move |
| EnvLoader.ResultMeans | environment/parse.go:183-190 | a reported error means some variable fails, and nil means the scan need not have failed, whatever the schedule |
| EnvLoader.WhenParseReports | environment/parse.go:155-168 | an error is reported under every schedule if and only if scanning must fail |
| EnvLoader.FailureCanGoUnreported | environment/parse.go:162-168 | a struct and a schedule in which a nested failure is lost |
| EnvScan.GetField | environment/parse.go:193-244 | one field is set to its variable's converted value, left alone when that is not set, or reported when it cannot be stored, and no other field changes |
| EnvScan.ScanStruct | environment/parse.go:154-182 | the field loop loads fields in order up to the first failure and starts one goroutine for each nested struct passed |
| EnvScan.ScanStructIsOwnMoves | environment/parse.go:154-182 | that loop is the goroutine's own moves in the concurrent model: the same leaves loaded, the same children started, the same field stopping it |
| Crudl.ScannedColumns | crudl/model.go:96-127 | every scanned name is non-empty and comma-free, belongs to its field, and the columns are in strict struct order |
| Crudl.ColumnIsRight | crudl/model.go:96-126 | a field has a column exactly when it has a db tag, is no struct pointer, what precedes the tag's first comma is not "-", and that or else the json name is non-empty; that is its name |
| Crudl.ChosenColumns | crudl/model.go:131-142 | a column is in the create, update, select, list or key list if and only if it was scanned and that word is among the words after its tag's first comma |
| Crudl.ChosenCount | crudl/model.go:131-142 | and it is there as often as the word is |
| Crudl.LastValidatorWins | crudl/model.go:143-151 | a column name's validator is that of the last tag of the last field that gives it one |
| Crudl.NoValidator | crudl/model.go:143-151 | a column name that is given no validator has none |
| Crudl.ChosenInOrder | crudl/model.go:131-142 | each such list is in struct order |
| Crudl.ChosenWithoutRepeats | crudl/model.go:131-142 | a struct that repeats no tag on a field prints no column twice |
| Crudl.ColumnIsScanned | crudl/model.go:96-127 | every field that is not skipped is among the columns |
| Crudl.Config.ScanStruct | crudl/model.go:95-155 | the two scanning loops leave exactly the specified lists, key and validators |
| Crudl.Config.Register | crudl/register.go:52-80 | refuses a struct exactly when no column is the primary key; otherwise the key is the last such column, and each statement asked for is printed from the columns that carry its word, or from all columns if none does, in struct order, its list splitting back into them |
| Crudl.PrintedIsRight | crudl/register.go:138-206 | the columns a statement prints are exactly those that carry its word, each as often, or if there are none exactly the scanned ones once, in struct order |
| Crudl.InsertPrinted | crudl/register.go:138-151 | the INSERT printed is the one text whose columns split back into the chosen names and whose i-th placeholder is the i-th column's |
| Crudl.ReadPrinted | crudl/register.go:170-183 | the SELECT printed is the one text whose columns split back into the chosen names |
| Crudl.UpdatePrinted | crudl/register.go:193-210 | the UPDATE printed is the one text whose list splits into one assignment a column, naming its own column on both sides |
| Crudl.ListPrinted | crudl/register.go:242-255 | the LIST printed is the one text whose columns split back into the chosen names, each in backquotes |
| Crudl.ColumnsSplitBack | crudl/register.go:151 | a text splits back into given comma-free names if and only if it is those names joined by commas |
| Strings.SplitJoin | crudl/register.go:151 | joining comma-free pieces and splitting again gives the pieces back |

## Left out

- Clients for HTTP, MQTT, Redis, MySQL, gRPC and tracing, and server start and stop: network I/O and option plumbing.
- Circuit breaker and retry: their state machines live in other libraries.
- The HTTP worker-pool middleware and route dispatch: the middleware runs the handler again when queueing fails, and its job has no reply channel.
- `event/client.go`: its condition-variable broadcasts are sent without the lock.
- Goroutine identity in the classes: a class method runs without interruption, and stops for good where it has to wait; interleavings and waking up are covered by the step systems.
- PoolServer.WorkerServer.StartServer: an option chooses the number of workers or fails; closures that do anything else to the worker are not modelled, the source having none.
- OR and AND goroutine bodies are steps on values, not methods of a class: the source gives them no object of their own.
- OR's `append(channels[3:], orDone)` on a caller's slice with spare capacity writes into the caller's array; slices are values here.
- Memory tearing: the unlocked accesses to `w.WorkerPool` and to the loader's shared error variables are atomic here.
- Pointer aliasing between nested structs: a struct value is a tree.
- `Parse`'s argument check, panic recovery and validators: a type test and a loop over callbacks.
- Reflection, strconv, the MySQL execution and JSON: a leaf has a kind, conversions are an arbitrary partial function.
- `ErrorLog`, logging, route names, and the parameter validators the register methods collect.
- Nil jobs, negative worker counts, panicking handlers, and a second Close, StartServer or StopServer.
