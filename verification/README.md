# Verification of the Lua runtime

Dafny models of the hard parts of the runtime, and proofs about them.

* **The event loop** (`runtime.go`, the event types, and the goroutines beside the loop). `EventLoop` is the
  scheduler as a transition system: receiving an event, the start of a tick with its sort, one turn of the inner
  loop, the swap, the error exit and the context's end, with everything that can happen in between: Lua code
  outside the loop, the file watcher, HTTP goroutines, ZeroMQ receivers and Shutdown. A Lua call is an arbitrary
  outcome: it stops any timers or sockets, posts any new events, and returns `true`, something else, or an error.
  `LoopInvariants` and `LoopRuns` hold what every step keeps and what every run satisfies, `LoopEnds` what ends the
  loop and what the result of a call decides, `Timers` what the clock alone decides, and `Background` the hand-over
  between goroutines and the loop.
* **The loop on its objects.** `Slices`, `EventObjects` and `RuntimeProcess` are the same loop as imperative code:
  Go slices with a backing array, an offset and a length; timer and state event objects whose fields change; Lua
  calls that change them; `sort.Sort` with `Swap` and `Less`; and `Process`. Each method is proved to be a step, or a
  run of steps, of `EventLoop`, so all theorems about runs hold of the objects.
* **Hot reload** (`scripts.go`). `HotReload` composes any number of event loops with the file watcher, the ring of
  runtimes and the shared cache, `HotReloadProofs` proves the global invariant and what a commit means, and
  `HotReloadHistory` what must have happened before one. `ScriptModule` is the registry and the watcher's loop over the ring as imperative code.
* **Redis fan-out** (`module_redis.go`) in `RedisFanOut`, and **ZeroMQ packets** (`module_zmq.go`) in `Framing`.
* **Lua and Go values** (`luaconv/luaconv.go`) in `LuaConv`: the relation and the function that `LuaValue` and
  `Value` compute, the loops that compute them, and the two retractions.
* **strftime** (`auxlib/utils.go`) in `Strftime`, and **bit32** (`auxlib/bit32.go`, section 6.7 of the Lua 5.2
  Reference Manual) in `Bits` and `Bit32`.

## Where the code does not do what one would expect

Each of these is proved, with the exact condition where there is one.

* A runtime created after the first runtime of a round has been sent back to the ring takes another one's turn: the
  round ends by count, so the newcomer, though in the ring, may be left without the module
  (`HotReloadProofs.LateRuntimeIsPassedOver`; the round covers the whole ring if and only if nobody joins that late,
  `HotReloadProofs.CommitCoversRingIff`).
* `Value` turns a Lua object (userdata, a thread, a channel) that `LuaValue` has passed through into nil, so a value
  comes back the same if and only if it holds none (`LuaConv.LuaValueRetractionIff`).
* `arshift` of a negative number by more than 32 places gives 0 and not 0xFFFFFFFF (`Bit32.ArshiftIff`), and
  the logical shifts reduce their displacement modulo 2^32 first (`Bit32.ShiftsIff`).
* A lone `%` at the end of a format swallows what a concatenation puts behind it (`Strftime.ExpandConcatIff`).
* `loop` with a period of 0 calls its function at most once (`Timers.PeriodlessFiresAtMostOnce`).

## Model

| member | source | states |
|---|---|---|
| LoopInvariants.StepKeepsInv | runtime.go:181-223 | every step, of the loop or beside it, keeps the loop invariant: no event is held twice among channel, queue and swap queue; the swap queue is empty between ticks; until the loop ends, an event that would continue is held; a request goroutine runs exactly in PROGRESS, a receiver in PROGRESS and never before; a message and a reload event are new or complete, and a reload event is answered exactly when complete |
| LoopInvariants.RunKeepsInv | runtime.go:181-223 | the same over every run |
| LoopRuns.Conservation | runtime.go:195-218 | over every run and for every event: times queued now = times queued before + times received - times left, and it leaves only because it was invalid when popped, did not continue after Update, or failed |
| LoopRuns.DrainEmits | runtime.go:198-210 | a turn that updates an event reports, last, whether it failed, was kept at the end of the swap queue, or was dropped, and nothing else about its place |
| LoopRuns.GoneForever | runtime.go:198-210 | an event the loop no longer holds is never heard of again |
| LoopRuns.StoppedNeverRuns | module_event.go:109-117 | once an event is invalid, whoever stopped it, it is invalid for ever and never updated or called again in any continuation |
| LoopRuns.StoppedLeavesByNextTick | runtime.go:199-212 | an invalid event that has been received, and is not already kept in a tick under way, is held no longer when the next tick ends |
| LoopRuns.StoppedLeavesSoon | runtime.go:199-212 | one stopped in a tick that has already kept it is gone when the tick after that ends |
| LoopRuns.TickIsSnapshot | runtime.go:193-212 | within a tick the events popped are a prefix of the sorted queue of its beginning, all of it if the tick ends; none twice, none posted meanwhile, priorities not decreasing |
| LoopRuns.TickPopsQueue | runtime.go:197-198 | whatever happens beside the loop, popped events followed by those still queued are the queue at the beginning |
| LoopRuns.NothingAfterHalt | runtime.go:200-206 | after an error or the end of the context no event is received or updated |
| LoopRuns.RunKeepsIdentity | runtime_event_state.go:54-70 | over every run an event keeps its type, priority and period, its phase never goes back, and a timer's validity never returns |
| LoopRuns.StepKeepsOthers | module_event.go:90-117 | a step changes events other than its subject only by stopping them |
| LoopEnds.RaiseHalts | runtime.go:201-207 | a turn that updates an event ends the loop if and only if one of its calls raised an error and it is no reload event, whose errors go to the watcher |
| LoopEnds.NothingAfterRaise | runtime.go:201-207 | after such an error nothing is received, updated or called in any continuation |
| LoopEnds.HaltsIff | runtime.go:188-211 | a step ends the loop if and only if it is such an error, or the context is found cancelled between ticks |
| LoopEnds.CancelledIff | runtime.go:158-179 | the context is cancelled by the Update of an exit event or from outside and by nothing else; the tick under way goes on |
| LoopEnds.CancelledForever | runtime.go:189-190 | once cancelled it stays so, and between ticks the loop may then end |
| LoopEnds.StopIsObeyed | module_event.go:109-117 | a timer or socket that any call of a step stops, another's or its own, is invalid after it |
| LoopEnds.StoppedByCallNeverRuns | module_event.go:109-117 | and is never updated or called again in any continuation |
| LoopEnds.CallbackDecides | module_event.go:90-107 | a timer is called when its delay has gone by and not before; true makes it wait a period, if it has one and was not stopped, anything else drops it, an error ends the loop |
| LoopEnds.RefusedIsGone | module_event.go:102-106 | a timer whose function does not return true is never heard of again |
| LoopEnds.ReceivedInOrder | runtime.go:217-218 | over every run events are received in the order in which they were made and sent, and none is lost |
| LoopEnds.CallSends | module_event.go:57-60 | what a call posts is sent in the order of its posts, each as posted unless the call stopped it |
| Timers.FollowCadence | module_event.go:90-107 | for the clock alone: k calls of a loop timer take at least k-1 periods and less than k-1 periods and ticks and one period more |
| Timers.FollowDelay | module_event.go:90-107 | for the clock alone: a timer without a period is called once, as soon as its delay has gone by |
| Timers.TimerFollowsClock | runtime.go:193-212 | a timer nobody disturbs is given each tick exactly once over any run, whatever the other events do, and is called and held just as the clock alone says |
| Timers.LoopCadence | module_event.go:63-82 | a loop timer that returns true and is not stopped is called in its first tick, and k calls over ticks e1..en of at most M satisfy (k-1)P <= e2+..+en < (k-1)(P+M)+P |
| Timers.DelayFiresOnTime | module_event.go:42-61 | a delay timer is called exactly once, in the first tick by which its delay has gone by, and leaves the queue then and not before |
| Timers.PeriodlessFiresAtMostOnce | module_event.go:90-107 | a timer without a positive period is called at most once in any run, whatever scripts do |
| Background.OneShotFiresExactlyOnCompletion | module_http.go:213-268 | in any run and interleaving an HTTP request or a Redis message has called Lua exactly once if it has completed and never otherwise, and a request has released its context just as often |
| Background.TickFinishes | runtime.go:197-212 | a tick that ends has completed every request in FINALIZE, and every message and reload event not yet handled, that it found in the queue |
| Background.TickCallsOnce | module_http.go:225-266 | a tick that finds a request in FINALIZE, or a message not yet handed on, calls its function exactly once before it ends, and for a request releases the context exactly once |
| Background.ReloadAnswersOnce | scripts.go:436-481 | in any run a reload event answers at most once and for good, exactly when it completes; it calls Lua at most once and never without answering; a hotfix that succeeds has called it exactly once |
| Background.RequestProtocol | module_http.go:213-229 | a request goes from INITIALIZE to PROGRESS by its first Update, to FINALIZE only by the end of its goroutine and to COMPLETE only by an Update after that; the goroutine runs exactly in PROGRESS |
| Background.SocketProtocol | module_zmq.go:159-177 | a socket goes from INITIALIZE to PROGRESS by its first Update and to COMPLETE exactly when its receiver ends or some call stops it |
| Background.ProgressUpdateEmptiesInbox | module_zmq.go:177-194 | an Update in PROGRESS without an error hands out all that was queued and leaves the queue empty, even if a call stops the event |
| Background.PacketsInOrderOnce | module_zmq.go:159-197 | over every interleaving, packets handed to Lua followed by those queued = those queued before followed by the well-formed ones received since |
| Background.WellFormedPacketsArrive | module_zmq.go:166-175 | what is handed out and still queued is what was queued before and one packet for each request whose last frame can be decoded, with that payload and the first of several frames as sender, in order; a malformed request adds nothing |
| Background.SentPacketsArrive | module_zmq.go:119-146 | if the requests are serialised packets, exactly those packets, with sender and payload, are handed out or still queued |
| Framing.FramesRoundTrip | module_zmq.go:119-146 | if gob decodes what it encodes, the frames of a packet hold that packet, with or without a sender |
| Framing.CarriedPackets | module_zmq.go:119-146 | a sequence of serialised packets is read back as that sequence |
| Framing.OnlyEndsMatter | module_zmq.go:136-144 | frames between the first and the last are ignored |
| Framing.ParsedIff | module_zmq.go:136-146 | a request is malformed if and only if its last frame cannot be decoded; otherwise that is the payload, and the first of several frames the sender |
| Framing.WellFormedByDecoding | module_zmq.go:166-175 | malformed requests add nothing, each of the others the packet it carries, in order |
| Framing.ZmqPacket.Serialize | module_zmq.go:119-130 | none exactly if the payload cannot be encoded; otherwise the encoding is the last frame, after the sender if there is one |
| Framing.ZmqPacket.Deserialize | module_zmq.go:136-146 | true exactly if the last frame can be decoded; then that is the payload and the first of several frames the sender, else nothing changes |
| RedisFanOut.Subscriber.Startup | module_redis.go:46-71 | with messages and Append in any order, what is posted is, message by message, one event for each function registered when the message took the lock, in order of registration |
| RedisFanOut.Subscriber.Deliver | module_redis.go:52-62 | one event for each registered function, in order |
| RedisFanOut.ExactlyTheDueDeliveries | module_redis.go:46-71 | each function is sent each message as often as it was registered before it, and nothing else is sent |
| RedisFanOut.RegisteredGrows | module_redis.go:67-71 | later registrations never change the order of earlier ones |
| RedisFanOut.RegisteredIs | module_redis.go:67-71 | the registered functions are those of the start and then the appended ones, each in its place |
| RedisFanOut.FanOutGrows | module_redis.go:46-65 | what has been sent stays, and later messages are sent behind it |
| Slices.Append | runtime.go:209 | append writes in place exactly while there is room and moves to a new array otherwise; either way the elements are the old ones and the new one |
| EventObjects.Vm.CallLua | module_event.go:95-99 | whatever Lua posts and stops, objects and channel end up as the model's call leaves them |
| EventObjects.Vm.Stop | module_event.go:109-117 | one object is stopped and no other changes |
| EventObjects.Vm.Post | module_event.go:57-60 | a new object, sent at the end of the channel |
| EventObjects.Vm.UpdateTimer | module_event.go:90-107 | the timer's Update on the object is the model's, in effect, error and calls |
| EventObjects.Vm.UpdateExit | runtime.go:167-171 | the exit event's Update on the object is the model's |
| EventObjects.Vm.UpdateHttp | module_http.go:213-268 | the request's Update on the object is the model's, and returns an error exactly if its function raised one |
| EventObjects.Vm.UpdatePubSub | module_redis.go:783-796 | the message's Update on the object is the model's, and returns an error exactly if its function raised one |
| EventObjects.Vm.UpdateReload | scripts.go:436-481 | the reload event's Update on the object is the model's, whether the file loads or not and whether there is a module to call or not; it answers failure exactly if the call raised an error or a hotfix did not come to it |
| EventObjects.Vm.PerformReload | scripts.go:48-88 | hotfix and patch as far as events can tell: no call if the file cannot be read or does not compile, or if a patched module has not been evaluated; success exactly without an error, and for a hotfix with the call made |
| EventObjects.Vm.UpdateZmq | module_zmq.go:159-197 | the socket's Update on the object is the model's: packets from the front, one call each, until an error |
| EventObjects.Vm.UpdateEvent | runtime_event.go:23-31 | the same for an event of any type, with whether it starts a goroutine or cancels the context |
| EventObjects.HandOutOneMore | module_zmq.go:181-194 | handing out packets one by one, as the loop does, is handing them out from the front, as the model says |
| RuntimeProcess.Swap | runtime_event.go:57-59 | two elements change places; the events stay the same |
| RuntimeProcess.Sort | runtime.go:193 | the slice holds the same events, by priority; no more is promised |
| RuntimeProcess.Runtime.constructor | runtime.go:182-185 | the initial objects show the model's start; the two slices have different arrays |
| RuntimeProcess.Runtime.Receive | runtime.go:217-218 | receiving on the objects is the model's step |
| RuntimeProcess.Runtime.BeginTick | runtime.go:192-196 | sorting the slice in place is the model's step, for some order |
| RuntimeProcess.Runtime.Pop | runtime.go:198 | the front of the slice is taken by re-slicing; the rest stays |
| RuntimeProcess.Runtime.Serve | runtime.go:201 | Update on the object, with the goroutine it starts and the cancellation it causes, is the model's |
| RuntimeProcess.Runtime.Settle | runtime.go:201-210 | an error ends the loop; an event that continues is appended to the other slice |
| RuntimeProcess.Runtime.DrainNext | runtime.go:197-211 | one turn of the inner loop on the objects is the model's step and writes the model's trace |
| RuntimeProcess.Runtime.EndTick | runtime.go:212 | swapping the two slices is the model's step |
| RuntimeProcess.Runtime.Tick | runtime.go:192-212 | a tick ends, and with everything that runs beside it is a run of the model's steps |
| RuntimeProcess.Runtime.Select | runtime.go:188-219 | one round of the outer loop is a run of the model's steps, whichever case is taken |
| RuntimeProcess.Runtime.Script | module_event.go:42-82 | Lua code run outside the loop changes the objects as the model's step does |
| RuntimeProcess.Runtime.Order | scripts.go:345-346 | sending a reload event on the channel is the model's step |
| RuntimeProcess.Runtime.Shutdown | runtime.go:158-160 | cancelling the context from outside the loop is the model's step |
| RuntimeProcess.Runtime.Process | runtime.go:181-223 | any number of rounds of the select loop is a run of the model, with its trace, and keeps its invariant; the slices never share an array and refine two plain sequences |
| RuntimeProcess.Runtime.Respond | module_http.go:217-224 | the goroutine's deferred store on the object is the model's step |
| RuntimeProcess.Runtime.Frame | module_zmq.go:166-175 | queueing a packet on the object is the model's step; a malformed one changes nothing |
| RuntimeProcess.Runtime.Hangup | module_zmq.go:164-176 | the receiver's deferred store on the object is the model's step |
| HotReloadProofs.MoveKeepsInv | scripts.go:319-364 | every move of runtimes, watcher and newcomers keeps the global invariant: one unanswered reload event at most, the pool of runtimes as a multiset, the order of the ring, and who has been given which content, newcomers that were not visited nothing |
| HotReloadProofs.HistoryKeepsInv | scripts.go:319-364 | the same over every history |
| HotReloadProofs.AtMostOneUnanswered | scripts.go:345-351 | in every history, whatever was scanned into the cache before, at most one reload event of the whole system is unanswered |
| HotReloadProofs.OnlyCommitsChangeCache | scripts.go:352-360 | the cache changes only when the last answer of a round is a success |
| HotReloadProofs.CommitStep | scripts.go:352-360 | a commit follows as many successes as events sent, and stores the round's file |
| HotReloadProofs.CommittedContent | scripts.go:352-360 | what a commit finds in any state that meets the invariant |
| HotReloadProofs.CommitMeansEveryoneHasIt | scripts.go:48-87 | in every history, whatever was scanned into the cache before, whenever the cache changes: every runtime taken has performed its event with its code loaded and without an error, the first as a hotfix; the new content is the bytes that hotfix read, every runtime in the ring at the start of the round has been given exactly these, a known module keeps its flag and no other module changes |
| HotReloadProofs.FixedPoolGoesInOrder | scripts.go:322-360 | with a fixed pool, the runtimes visited are the first of the ring's starting order and the ring is that order turned |
| HotReloadProofs.RoundVisitsOnce | scripts.go:322-360 | with a fixed pool a runtime still to be taken in a round has not been taken in it |
| HotReloadProofs.CommitCoversRingIff | scripts.go:352-360 | after a commit every runtime in the ring has been given the committed content if and only if none joined after the first was sent back; then each was visited once, and the ring is in the order in which they were |
| HotReloadProofs.LateRuntimeIsPassedOver | scripts.go:352-360 | a history in which a runtime in the ring is left without the module that has just been committed |
| HotReloadProofs.DisableFlagIsForever | scripts.go:149-152 | a module's disable flag is that of its first version for ever |
| HotReloadProofs.WritesSpareDisabled | scripts.go:300-305 | with Write events alone a module first loaded with the marker is never replaced |
| HotReloadHistory.HeardHappened | scripts.go:436-481 | what the watcher has heard of in a round are moves of the history: Updates of reload events with these outcomes and this content on disk |
| HotReloadHistory.CommitWithoutRaise | scripts.go:347-360 | at every commit each runtime in the ring at the start of the round has, in a move of the history, performed its event with its code loaded and without an error, and what a hotfix found on disk is what is committed |
| HotReloadHistory.ReloadAnswers | scripts.go:48-88 | an Update that performs a reload event answers failure exactly if the call raised an error or a hotfix did not come to it, and never ends the loop |
| HotReloadHistory.PerformanceInstalls | scripts.go:48-88 | a hotfix without an error gives the runtime what is on disk, which becomes the content; a patch whose content loads gives that content, whatever its call does; otherwise nothing is given, and the cache stays |
| HotReloadHistory.NoticeStartsRound | scripts.go:299-318 | a readable file starts a round with what was found in it, unless it was written and is known as disabled |
| HotReloadHistory.FirstVersionSetsFlag | scripts.go:312-318 | in every history the flag of a module is whether the file noticed in the round that first commits it begins with the marker |
| HotReloadHistory.MarkedIsNeverReplaced | scripts.go:300-318 | so a file first loaded with the marker is never replaced by writing it |
| ScriptModule.LocalScriptModule.Add | scripts.go:141-155 | the names stay the keys of the modules, each once; the file is stored with the flag of the version before, as the protocol's cache has it |
| ScriptModule.LocalScriptModule.SortNames | scripts.go:147-148 | sorting keeps the names; no order is promised |
| ScriptModule.LocalScriptModule.Get | scripts.go:165-172 | null exactly for a name that is not listed; otherwise a registered file of that name that holds what the cache says |
| ScriptModule.LocalScriptModule.Spin | scripts.go:319-355 | the loop over the ring ends with the old runtimes and the newcomers in it; without newcomers it is the ring turned by the number visited; it succeeds only if every runtime of the start was visited and every answer was a success; if the ring was not empty, as many turns as it has runtimes in the end are enough to end it |
| ScriptModule.LocalScriptModule.Reload | scripts.go:319-364 | the same, and the registry changes only on success, to hold the content hotfix read; with a fixed pool the round always ends |
| ScriptModule.LocalScriptModule.Notice | scripts.go:299-319 | a Write to a file known as disabled changes nothing; any other readable file starts a round, with all that is said of a round |
| ScriptModule.TurnedMeans | scripts.go:327-328 | what taking from the front and sending back to the end, with newcomers at any time, makes of the ring |
| ScriptModule.ReorderedIsDistinct | scripts.go:146-148 | reordering the names makes none appear twice and loses none |
| LuaConv.LuaValueOf | luaconv/luaconv.go:24-63 | the recursion and its loops return a possible conversion, in whatever order tables are visited; booleans, strings, functions and objects as they are |
| LuaConv.MaxNOf | luaconv/luaconv.go:42 | the largest positive integer key |
| LuaConv.ValueOf | luaconv/luaconv.go:100-168 | the recursion and its loops return the specified Lua value; booleans, strings, bytes, times and numbers of every handled kind keep their value, and every kind of map and list can be looked up |
| LuaConv.TableOfMap | luaconv/luaconv.go:80-88 | the loop over a map[string]interface{}, in any order, fills a table with exactly the keys whose value is not nil, and under each its value |
| LuaConv.TableOfStringMap | luaconv/luaconv.go:65-73 | the same for a map[string]string: exactly its keys, under each its string |
| LuaConv.TableOfInt64Map | luaconv/luaconv.go:90-98 | the same for a map[string]int64: exactly its keys, under each its number |
| LuaConv.TableOfStringsMap | luaconv/luaconv.go:136-141 | the same for a map[string][]string: exactly its keys, under each its list from 1 on |
| LuaConv.TableOfStrings | luaconv/luaconv.go:148-153 | exactly the strings of the list, from 1 on |
| LuaConv.TableOfSlice | luaconv/luaconv.go:154-159 | exactly the elements that are not nil, from 1 on in their places |
| LuaConv.ArrayConverts | luaconv/luaconv.go:52-57 | a table filled from a slice converts to that slice without its trailing nils, and to an empty map if nothing is left |
| LuaConv.StringsConvert | luaconv/luaconv.go:43-51 | a table filled from a map converts to a map with the same keys, less those whose value is nil |
| LuaConv.ConvertsCanonical | luaconv/luaconv.go:24-63 | what LuaValue returns has no trailing nils, no nil entries and no whole floats, at any depth |
| LuaConv.ConvertsScalar | luaconv/luaconv.go:24-62 | nil, booleans, strings, functions and objects become themselves, a number that an int64 can hold that int64 and any other a float64 |
| LuaConv.ConvertsTable | luaconv/luaconv.go:41-57 | a table with a positive integer key becomes a slice as long as the largest, each element converted or nil; any other a map |
| LuaConv.ConvertsKeys | luaconv/luaconv.go:43-51 | in that map every entry that is not nil is found under a text of its key |
| LuaConv.ConvertsTexts | luaconv/luaconv.go:43-51 | and under every text is the converted value of an entry whose key has that text |
| LuaConv.ValueOfScalar | luaconv/luaconv.go:100-135 | booleans, strings, bytes, times and numbers of every handled kind keep their value, anything else is nil |
| LuaConv.ValueOfMap | luaconv/luaconv.go:80-88 | a map becomes a table with exactly the keys whose value is not nil, and under each its value |
| LuaConv.ValueOfSlice | luaconv/luaconv.go:154-159 | a slice becomes a table with exactly the elements that are not nil, from 1 on in their places |
| LuaConv.LuaValueRetractionIff | luaconv/luaconv.go:24-168 | LuaValue(Value(LuaValue(t))) is LuaValue(t) if and only if the latter holds no Lua object, at any depth and in any order |
| LuaConv.PlainRetraction | luaconv/luaconv.go:24-168 | so it is for every t without Lua objects |
| LuaConv.ValueRetraction | luaconv/luaconv.go:24-168 | Value(LuaValue(Value(g))) is Value(g), for every Go value of every type |
| Strftime.FlagScanner.Next | auxlib/utils.go:52-79 | reading on keeps the output written and still owed together, at every step of the recursion; a pending flag is followed by a byte that is not a flag |
| Strftime.AppendExpansion | auxlib/utils.go:91-101 | a flag is written as its expansion, an unknown one as itself |
| Strftime.Write | auxlib/utils.go:89-107 | what has been written and what is still owed together stay the same |
| Strftime.ExpandConcat | auxlib/utils.go:86-110 | formatting distributes over concatenation if the first format leaves no % dangling |
| Strftime.Strftime | auxlib/utils.go:86-110 | the loop computes the leftmost reading of the format |
| Strftime.EscapeRoundTrip | auxlib/utils.go:61-75 | with every % doubled, any string formats to itself |
| Strftime.ExpandConcatIff | auxlib/utils.go:86-110 | formatting distributes over concatenation if and only if the first format leaves no % dangling |
| Strftime.DateFlags | auxlib/utils.go:81-84 | the ten flags of the date stand for their layouts |
| Strftime.TimeFlags | auxlib/utils.go:81-84 | the ten flags of the time of day stand for theirs |
| Strftime.OtherTokens | auxlib/utils.go:61-100 | an unknown flag, a byte that is no flag and a lone % stand for themselves, a doubled % for one |
| Strftime.Weekday | auxlib/utils.go:94-96 | %w is the digit of the weekday |
| Bit32.Replace | auxlib/bit32.go:161-174 | the shifts and xors compute the word with the low bits of the value in place of its field, and refuse exactly a field that does not lie within the 32 bits |
| Bit32.ErrorIff | auxlib/bit32.go:149-170 | extract and replace refuse exactly the fields that do not lie within the 32 bits |
| Bit32.Uint32IsTwosComplement | auxlib/bit32.go:150-163 | an argument is taken modulo 2^32, a negative one in two's complement |
| Bit32.ExtractIsField | auxlib/bit32.go:149-159 | extract is the field read as a number |
| Bit32.ExtractAfterReplace | auxlib/bit32.go:149-174 | reading a field just written gives the value modulo 2^width |
| Bit32.DisjointFieldUnchanged | auxlib/bit32.go:149-174 | writing a field leaves a disjoint one |
| Bit32.ReplaceByExtract | auxlib/bit32.go:149-174 | writing back what was read changes nothing |
| Bit32.LastReplaceWins | auxlib/bit32.go:161-174 | the last write to a field wins |
| Bit32.DisjointReplacesCommute | auxlib/bit32.go:161-174 | writes to disjoint fields commute |
| Bit32.ShiftsIff | auxlib/bit32.go:183-210 | lshift and rshift are multiplication and floor division by a power of two, negative displacements reversing them, for all words if and only if the displacement survives its conversion to uint32 |
| Bit32.ArshiftIff | auxlib/bit32.go:50-61 | arshift is floor division of the signed word by 2^n, except exactly for negative words and n above 32 |
| Bit32.BitOfRotate | auxlib/bit32.go:176-199 | a rotation moves each bit to its place modulo 32 |
| Bit32.RotatesMove | auxlib/bit32.go:176-199 | lrotate moves each bit up and rrotate down, round the end of the word, for every displacement |
| Bit32.RotationLaws | auxlib/bit32.go:176-199 | the rotations undo each other, add up, and repeat after 32, for every displacement |
| Bit32.Band | auxlib/bit32.go:63-81 | refused exactly if an argument before the first nil is no number; of arguments that are words, a bit is set exactly if it is set in every one; without arguments all are; and whatever the platform makes of numbers out of range, the and of what it makes |
| Bit32.Bor | auxlib/bit32.go:89-107 | the same, a bit being set exactly if it is set in some argument |
| Bit32.Bxor | auxlib/bit32.go:129-147 | the same, a bit being set exactly if it is set in an odd number of arguments |
| Bit32.Btest | auxlib/bit32.go:109-127 | the same, true exactly if some bit is set in every argument |
| Bit32.RejectedIff | auxlib/bit32.go:64-78 | a call is refused exactly if an argument before the first nil is no number |
| Bit32.InputsAre | auxlib/bit32.go:64-78 | the operands are the arguments, all of them and in order; without any there is the default |
| Bit32.InputBits | auxlib/bit32.go:64-78 | how often a bit is set in the operands, by the arguments |
| Bit32.NilEnds | auxlib/bit32.go:67-71 | arguments from the first nil on do not matter, and a nil as the first argument stands for the default |

## Left out

- Real time and the choice `select` makes: any step that is ready may come next, and a tick's length is any number that is not negative.
- RuntimeProcess.Runtime.Process: is about any finite number of rounds of the select loop, as nothing ends it but an error or the context.
- The Lua VM, protected calls and the stack: a call is an arbitrary outcome of stops, posts and a result.
- The capacity of channels, and what happens when one is full or a runtime of the ring has ended: sending always succeeds and nothing is claimed to happen eventually.
- The order of events of the same priority: `sort.Sort` is not stable, so `RuntimeProcess.Sort` promises some order by priority and no more; its body is an insertion sort.
- The nesting of Go's embedded structs: a state event object has the fields of all the types that embed StateEvent, and `EventObjects.EventRef` stands for the Event interface.
- TimerEvent.Update (runtime_event_timer.go:53-60), which the timers Lua makes override.
- The growth of a Go slice: a full one moves to an array of any greater length; here it is twice the length and one more.
- HTTP requests, response bodies and headers, which the loop at module_http.go:231 never reads, and the status handed to Lua.
- The state stored by a goroutine in the middle of one Update: an Update and a store are each atomic.
- Redis commands, subscriptions and their errors, sockets, file watching, scanning of directories, and logging.
- HotReloadProofs.CommitMeansEveryoneHasIt: speaks of what reload events install in each runtime; `require` from the cache and what a module's code does when run are not modelled, and a runtime that has not evaluated the module has only its preload function replaced, without a call. The cache that OpenPackage scans (scripts.go:247-274) is any map.
- ScriptModule.LocalScriptModule.Notice: is about files that can be read; a file that cannot is passed over.
- ScriptModule.LocalScriptModule.SortNames: does not state an order, because ModuleNames.Less (scripts.go:96-104) is not one.
- ScriptModule.LocalScriptModule.Reload: does not say that a round ends while runtimes keep joining, as each newcomer makes it longer by one; with as many turns as there are runtimes in the end it does.
- Framing.FramesRoundTrip: assumes that encoding/gob decodes what it encodes; a nil and an empty sender are the same.
- LuaConv.ValueRetraction: numbers are real, so NaN, infinities and the sign of zero are not modelled; the two conversions between float64 and int64 are arbitrary functions, and fmt.Sprint is only assumed to print a string as itself.
- LuaConv.MaxNOf: LTable.MaxN is the largest positive integer key; gopher-lua keeps keys above its array limit elsewhere.
- Table (luaconv/luaconv.go:75-78), one type assertion, and tables that contain themselves, on which LuaValue does not end.
- Strftime.FlagScanner.Next: the scanner's `start` and `end` strings are empty, as strftime always passes them.
- Bit32.ArshiftIff: is about |n| below 2^32; Go leaves the conversion of a float out of range to the platform, which is a parameter here, as it is for the operands of band, bor, bxor and btest.
- bit32's `bnot`, bit64, and the base64, md5, uuid, aes and json modules: single expressions or calls into libraries.
