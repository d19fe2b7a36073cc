# Verified models of vzsdk

This project models the core of vzsdk, an SDK in C++ for talking to cameras, and proves what the code promises.
The models follow the code: the same branches, edge cases, constants and error results. Code that works on
fields and buffers is a class whose methods are proved against functions; code that several threads run is a
state machine over its critical sections; everything else is functions and lemmas.
`dafny verify dfyconfig.toml` checks all of it.

## What is modelled

| part | files |
|---|---|
| Cross-thread `Send`, `ReceiveSends`, `Clear` over the sticky wake-up of a socket server | `ThreadSend`, `ThreadSendOrder`, `ThreadSendNestedGet`, `SendQuit` |
| Message queue: posts in two steps, delayed messages in a heap, `Get`, `Peek`, `Clear`, `Quit` under any interruptions | `MessageQueueSpec`, `MessageQueueCalls`, `MessageQueueQuit`, `MessageQueuePeek`, `MessageQueueHistory`, `MessageQueueClear`, `Heap`, `MessageQueue` |
| The wire path: JSON writer and reader, byte buffer, packet framing, session, its two ends | `Json`, `JsonWriter`, `JsonReader`, `JsonParser`, `JsonRoundTrip`, `JsonText` (RFC 8259), `JsonMembers`, `JsonConformance`, `JsonWritten`, `JsonLeniency`, `ByteBuffer`, `Framing`, `Session`, `WirePath`, `WireRun`, `WireBinary` |
| `FifoBuffer` and the stream pump `Flow` | `Fifo`, `FifoBuffer`, `Flow` |
| SHA-1 (FIPS 180-4) and HMAC (RFC 2104) | `Sha1Spec`, `Sha1Transform`, `Sha1Context`, `Hmac` |
| Base64 (RFC 4648) | `Base64`, `Base64RoundTrip`, `Base64Modes` |
| The lifetime of a `SignalThread` | `SignalThreadSpec`, `SignalThread` |
| The dispatch pass of `PhysicalSocketServer` | `Dispatch`, `PhysicalSocketServer` |

`Bytes` holds bytes, ASCII codes and facts about sequences.

What the code gets from outside is a parameter: what a socket returns and accepts, what the streams around `Flow`
return, what other threads and handlers do to a queue while `Get` has left its lock, what handlers do to the list of
dispatchers, the clock, `sscanf`, the byte that the JSON reader finds behind its input, and the byte order of the
host. All theorems hold for all of them; only where numbers of other writers are read, `sscanf` is taken to accept every
number of RFC 8259 (`JsonConformance.ScansNumbers`).

## Where the code does less than its documentation

Each is proved, with the exact condition or the guard under which the promise holds.

- **Send can hang when a handler calls Get.** The loop `while (!ready) { ReceiveSends(); Wait(); }`
  (src/event/thread.cpp:412-416) does not look at `ready` between the two calls. A handler that runs in that
  `ReceiveSends` and calls `Get`, even with a time-out, swallows the wake-up of the Send below it.
  `ThreadSend.SendNeverDeadlocks` holds for all runs without such a Get and without a Get(kForever) in a handler of
  another thread's Send. `ThreadSendNestedGet.HarmlessIff`: for any number of threads exactly these Gets must be
  forbidden; each of them alone makes a deadlock reachable.
- **Quit can lose a ready message.** The header promises that ready posts are delivered before Get returns false
  (src/event/messagequeue.h:211-216). Two things break that on a queue that was stopped before the call. A post tests
  `fStop_` before it takes the lock (src/event/messagequeue.cpp:289-306); one that passes its test before the Quit and
  gets into the queue after Get has found it empty stays behind: `MessageQueueQuit.LatePush`. And a handler that Get calls
  can peek: Get then finds the list empty and returns false although the peeked message is ready:
  `MessageQueuePeek.NestedPeekHides`. If handlers take back what they peek, the promise holds, whatever happens short of
  a Restart, exactly for a queue with a peeked message, or one that is stopped before the call with no due post in
  flight: `MessageQueueQuit.QuitPromiseIff`. If they need not, all that waits or is in flight must be dispose messages
  as well: `MessageQueuePeek.PeekingPromiseIff`.
- **Quit can leave a Send behind** in the same way: exactly if the thread is not stopped before the Get, or a Send is between
  its test of `fStop_` and the lock (src/event/thread.cpp:374-404): `SendQuit.SendPromiseIff`.
- **A nested Peek overtakes or loses a message.** A handler that peeks while a Get of the same queue is in
  `ReceiveSends` or waits fills the peek slot behind the Get's back; the Get can then return a later message, and a Peek in
  its place overwrites the slot (src/event/messagequeue.cpp:171-181). Order is kept by every Get that does not return
  a message past a full slot (`MessageQueuePeek.GetOrderIff`), and a Peek loses a message exactly if its Get does
  (`MessageQueuePeek.PeekLosesIff`). No Get does if none of its looks finds the slot full; if one does, one more post
  before that look is enough to make it happen (`MessageQueuePeek.PeekedCanBePassed`). If every handler takes back
  what it peeks, any calls deliver in order and lose nothing: `MessageQueueHistory.CallsDeliverInOrder`.
- **GetDelay does not look at the peek slot** (src/event/messagequeue.cpp:336-350): with nothing but a peeked message it
  answers a positive delay or none although the next Get returns at once: `MessageQueues.DelayIsRightIff`.
- **A restarted SignalThread is told to quit at once.** `worker_.Stop()` sets the worker's `fStop_` and nothing resets it,
  so `ContinueWork` is true exactly in the first run, while Destroy has not stopped it:
  `SignalThreadSpec.RestartedWorkIsQuit`. The header recommends restarting for periodic tasks.
- **Destroy(true) from inside OnMessage leaks or deadlocks, always.** `SignalThreadSpec.DeletedIffNeverWaitsInside`: a
  given-up object is deleted, once the threads have run to their ends, if and only if no waiting Destroy was called
  inside OnMessage. From `OnWorkDone` the count is dropped twice; from a handler of `SignalWorkDone` that has called
  Start, main thread and worker wait for each other.
- **The POSIX dispatch loop skips dispatchers.** Its index is not registered, so a handler that removes a dispatcher at or
  before it makes it skip the next one, and nothing else does (src/event/physicalsocketserver.cpp:1342-1382):
  `PhysicalSocketServers.PosixSkips`, `PhysicalSocketServers.PosixTakesIff`. The pass with registered iterators is
  right.
- **Flow without a `data_len` argument loses what it has buffered** when a write is interrupted
  (src/base/stream.cpp:1216-1220, 1231-1238): the `held` bytes of `Flows.Flow`.
- **Base64 decoding that demands pads fails on a line end behind the last full group** (src/base/base64.cpp:204-256), although
  the mode ignores white space everywhere else: `Base64Modes.AllPadsDecodeIff`.
- **The JSON reader accepts texts that are not JSON**: it takes a lone minus sign as 0, numbers with leading zeros and any
  bytes in strings, takes any escape for the second half of a surrogate pair, ignores what follows the first value, accepts a
  comma before the closing brace behind a member whose name is empty, and goes on after a comment behind a member whatever
  token but a closing brace follows. The lemmas of `JsonLeniency` give each family. Every JSON text is read as what it
  means: `JsonConformance.ParseReads`.

## Model

| member | source | states |
|---|---|---|
| ThreadSend.SendNeverDeadlocks | src/event/thread.cpp:374-457 | In every reachable state with an outstanding Send, whatever the nesting of Sends and handlers, the latest open Send goes on: its sender is awake or about to be woken for its completion, or its target is awake or about to be woken for it; unless a Get was entered inside a waiting Send or a Get(kForever) inside a handler of another's Send |
| ThreadSend.SomebodyIsAwake | src/event/thread.cpp:391-432 | The same from the invariant alone: of the open Sends the latest one has an awake sender, an awake target, or a wake-up on its way |
| ThreadSend.AwakeCanStep | src/event/thread.cpp:374-457 | A thread that is not blocked has a step to take |
| ThreadSend.InvariantStep | src/event/thread.cpp:374-485 | Every step of Send, ReceiveSends, Clear and Get keeps the invariant: stacks, ledger of calls, no lost Send, no lost completion |
| ThreadSend.ReachableInvariant | src/event/thread.cpp:374-485 | The invariant holds in every state of every interleaving of any number of threads |
| ThreadSend.SendsAreExact | src/event/thread.cpp:395-482 | Every accepted Send is handled once on its target or removed once by Clear, never both; its caller does not return before and returns at most once; the order of the Sends is in ThreadSendOrder |
| ThreadSendOrder.ListsAreQueues | src/event/thread.cpp:395-457 | In every reachable state each send list holds the waiting Sends in the order in which they were accepted |
| ThreadSendOrder.FirstComeFirstServed | src/event/thread.cpp:395-482 | In every reachable state, of two Sends to one thread the one accepted first has begun or was cleared once the other one has begun |
| ThreadSend.FlagCoversList | src/event/thread.cpp:434-457 | Between critical sections a non-empty send list has has_sends_ set, even when handlers re-enter ReceiveSends |
| ThreadSend.AttendedStep | src/event/physicalsocketserver.cpp:554-578 | No step loses the wake-up for a queued Send: its target is attending, awake or about to be woken |
| ThreadSend.RecalledStep | src/event/thread.cpp:412-431 | No step loses the completion of a Send: its sender will see ready, is woken, or about to be woken by the re-issued WakeUp |
| ThreadSendNestedGet.HarmlessIff | src/event/thread.cpp:395-457 | For any number of threads and any set of allowed nested Gets: the latest open Send goes on in all reachable states if and only if no Get above a waiting Send and no Get(kForever) in a handler is allowed |
| ThreadSendNestedGet.DeadlockAmong | src/event/thread.cpp:412-416 | A Get above a waiting Send, with or without a time-out, lets two of any number of threads block each other for ever although the open Send has been handled |
| ThreadSendNestedGet.HandlerDeadlockAmong | src/event/thread.cpp:434-457 | So does a Get(kForever) in the handler of another's Send |
| ThreadSendNestedGet.WideStep | src/event/thread.cpp:395-457 | Idle threads do not disturb a step of the others |
| ThreadSendNestedGet.NestedGetDeadlocks | src/event/thread.cpp:412-416 | With two threads everybody is blocked then |
| ThreadSendNestedGet.HandlerGetDeadlocks | src/event/thread.cpp:434-457 | And in the second case |
| SendQuit.SendPromiseIff | src/event/thread.cpp:374-457 | Get leaves no Send behind when it returns false on a quitting thread, whatever happens during the call short of a Restart, if and only if the thread is stopped before the call and no Send is between its test and the lock |
| SendQuit.LateSend | src/event/thread.cpp:374-404 | The race on a thread stopped before: a Send in flight queues itself behind the last ReceiveSends |
| SendQuit.GetValid | src/event/thread.cpp:434-457 | However ReceiveSends is interrupted, every queued Send waits, was handled or was cleared, once |
| SendQuit.GetInOrder | src/event/thread.cpp:434-457 | And it was handled in the order in which it was queued: the Sends handled so far and those still waiting ascend |
| MessageQueueSpec.DeliveredOnce | src/event/messagequeue.cpp:171-399 | In every run every message that got into the queue is pending, peeked, delivered, disposed, cleared or overwritten: in exactly one place, once |
| MessageQueueSpec.AdmittedOnce | src/event/messagequeue.cpp:285-334 | Every post that found the queue not stopped is in flight or has become exactly one message, and no other message exists |
| MessageQueueSpec.DeliveredInOrder | src/event/messagequeue.cpp:183-334 | In every run that neither passes nor overwrites a full peek slot plain posts come out in post order, delayed messages that were pending together by trigger, then post order, and nothing is lost |
| MessageQueueSpec.DelayedInOrder | src/event/messagequeue.h:182-193 | In such a run, of two delayed messages that waited together the one with the earlier trigger comes out first, and with the same trigger the one posted first |
| MessageQueueSpec.NeverEarly | src/event/messagequeue.cpp:214-224 | No message is delivered before its trigger, and no dispose message is delivered |
| MessageQueueSpec.RunInv | src/event/messagequeue.cpp:171-399 | The accounting, numbering and readiness invariants hold in every run |
| MessageQueueSpec.RunInOrder | src/event/messagequeue.cpp:183-334 | Delivered, peeked and ready messages stay in order over such a run, step by step |
| MessageQueueSpec.ClearKeepsOrder | src/event/messagequeue.cpp:352-399 | Clear leaves all other messages in the same relative order |
| MessageQueueSpec.ClearAccounted | src/event/messagequeue.cpp:352-399 | Clear moves every matching message, once, from slot, list or heap to the removed ones |
| MessageQueueSpec.RemovedCount | src/event/messagequeue.cpp:352-399 | Clear removes the messages that match, of slot, list and heap, each once; which ones match is in MessageQueueClear.ClearOfHandler and ClearOfAll |
| MessageQueueSpec.MoveInOrder | src/event/messagequeue.cpp:214-224 | Moving the first triggered message to the end of the list keeps the order |
| MessageQueueCalls.GetPath | src/event/messagequeue.cpp:183-280 | Every Get under any interruptions is a run of the machine, and one that keeps the order and loses nothing unless it returns a message past a full peek slot |
| MessageQueueCalls.GetEmpty | src/event/messagequeue.cpp:183-280 | If every handler takes back what it peeks, no look finds the slot full and no message is passed |
| MessageQueueCalls.PeekPath | src/event/messagequeue.cpp:171-181 | The same for Peek |
| MessageQueueHistory.CallsDeliverOnce | src/event/messagequeue.cpp:171-399 | After any calls of the queue, whatever interrupts them: every message in one place once, none early, posts accounted for |
| MessageQueueHistory.CallsDeliverInOrder | src/event/messagequeue.cpp:171-334 | After any calls of which none passes a full peek slot, in particular if all handlers take back what they peek, the delivered messages are in order and none is lost |
| MessageQueueHistory.CallsLose | src/event/messagequeue.cpp:171-191 | After any calls exactly as many messages are lost as Peeks have passed a full slot |
| MessageQueuePeek.GetOrderIff | src/event/messagequeue.cpp:171-280 | A Get that passes no full slot keeps a sound queue sound; one that does has handed out the message behind the peeked one, and for two plain posts the order is broken |
| MessageQueuePeek.PeekLosesIff | src/event/messagequeue.cpp:171-181 | A Peek loses a message exactly if its Get passes a full slot, and then that one; a Get loses none |
| MessageQueuePeek.PeekedCanBePassed | src/event/messagequeue.cpp:171-280 | For every queue and script: if no look finds the slot full, none is passed; if one does, the script with one more post at the end of that interruption makes Get pass the peeked message and Peek lose it |
| MessageQueueHistory.NestedPeekOvertakes | src/event/messagequeue.cpp:171-191 | Of two posts the second one is delivered before the first one when a handler has peeked |
| MessageQueueClear.ClearForgets | src/event/messagequeue.cpp:352-399 | Whatever steps follow a Clear, deliveries, disposals and what waits are those of the same run without the Clear, minus the removed messages |
| MessageQueueClear.ClearForgetsCalls | src/event/messagequeue.cpp:352-399 | The same later calls (posts, Clears, Quits, Restarts, message loops) hand out what they would have handed out without the Clear, in the same order, minus the removed messages |
| MessageQueueClear.ClearOfHandler | src/event/messagequeue.h:170-173 | After a Clear for a handler a message waits exactly if it waited before and is for another handler, or has another id and the Clear names one |
| MessageQueueClear.ClearOfAll | src/event/messagequeue.h:170-173 | After a Clear for no handler a message waits exactly if it waited before and has another id, and the Clear names one |
| MessageQueueClear.ClearSparesOthers | src/event/messagequeue.cpp:352-399 | Whatever calls follow a Clear for a handler, all other handlers are handed the same messages in the same order as without it |
| MessageQueueClear.ClearedStayAway | src/event/messagequeue.cpp:352-399 | And of what waited before the Clear, nothing that it names is handed out by them |
| MessageQueueClear.DrainIs | src/event/messagequeue.cpp:183-250 | A message loop hands out the peeked message, then the listed and triggered ones in order |
| MessageQueueHistory.NestedPeekLoses | src/event/messagequeue.cpp:171-191 | For every queue and a call in which a handler peeks once and nothing else happens: exactly if two messages are ready the Get hands out the second; a Peek in its place loses the first one |
| MessageQueueQuit.QuitPromiseIff | src/event/messagequeue.h:211-216 | Get leaves nothing ready, peek slot included, when it returns false on a quitting queue, whatever happens during the call short of a Restart and of a message left peeked, if and only if a message is peeked before, or the queue is stopped before the call and no post in flight is due |
| MessageQueueQuit.PeekPromiseIff | src/event/messagequeue.h:211-216 | The same for Peek |
| MessageQueuePeek.PeekingPromiseIff | src/event/messagequeue.h:211-216 | The same for handlers that may leave messages peeked: besides, nothing but dispose messages may wait or be in flight |
| MessageQueuePeek.PeekingPeekIff | src/event/messagequeue.h:211-216 | And for Peek |
| MessageQueuePeek.NestedPeekHides | src/event/messagequeue.cpp:171-253 | For every stopped queue with a deliverable message there are handlers that leave it peeked, so that Get returns false and the next Get returns it |
| MessageQueueQuit.QuitDelivers | src/event/messagequeue.cpp:225-253 | For a queue stopped before, not restarted, with no due post in flight: Get returns a message, or stops with an empty list and nothing triggered, and with an empty slot if the handlers take back what they peek |
| MessageQueueQuit.GetSees | src/event/messagequeue.cpp:199-253 | A Get that returns nothing has looked at the list and found nothing; if it gave up for fStop_, whatever is listed or has triggered got into the queue behind that look; if the handlers take back what they peek, nothing else is ready |
| MessageQueueQuit.LatePush | src/event/messagequeue.cpp:285-307 | The race, for every stopped queue with nothing ready and a due post in flight: Get looks, the post gets in, Get returns false with it ready |
| MessageQueueQuit.GetTakesItsTime | src/event/messagequeue.cpp:255-280 | Get times out only when the time it was given has passed, and otherwise fails only with Wait |
| MessageQueueQuit.DecideIff | src/event/messagequeue.cpp:225-280 | A round returns a message exactly if its look found one, stops exactly if it found none and fStop_ is set, fails exactly if then the wait does, and times out exactly if then the time is over |
| MessageQueueQuit.GetEndsInTime | src/event/messagequeue.cpp:255-280 | A Get with a time limit makes its last look before the limit is over: none follows a wait that ended behind it |
| Heaps.TopIsFirst | src/event/messagequeue.h:182-193 | The top of the heap is first by trigger and number among all delayed messages |
| Heaps.SortIsHeap | src/event/messagequeue.h:273-281 | An arrangement with the same elements that satisfies the heap order exists |
| Heaps.MakeHeap | src/event/messagequeue.h:277-281 | reheap: a heap of the same elements |
| Heaps.PushHeap | src/event/messagequeue.cpp:327-328 | push adds the element and keeps the heap |
| Heaps.PopHeap | src/event/messagequeue.cpp:221-222 | pop removes the top and keeps the heap |
| MessageQueues.MessageQueue.Get | src/event/messagequeue.cpp:183-280 | Result and new state under any interruptions are those of the function Get; stopped before, not restarted, no due post in flight, nothing left peeked: nothing ready is left; no full slot passed: order and messages are kept |
| MessageQueues.MessageQueue.Round | src/event/messagequeue.cpp:199-279 | One round of the outer loop: sent messages, look, inner loop, test of fStop_, wait |
| MessageQueues.MessageQueue.Pass | src/event/messagequeue.cpp:203-250 | The inner loop, interrupted behind every dispose message and before the test of fStop_ |
| MessageQueues.MessageQueue.Wait | src/event/messagequeue.cpp:255-268 | The wait is never asked to sleep past the trigger of a message accepted before the look |
| MessageQueues.MessageQueue.MoveTriggered | src/event/messagequeue.cpp:214-224 | All triggered messages move in the order of trigger and number; the returned delay is the exact time to the first of the rest |
| MessageQueues.MessageQueue.Peek | src/event/messagequeue.cpp:171-181 | A peeked message stays for the next caller; the promises of Get hold for a Peek that returns nothing, with any or no time limit; order and messages are kept if the handlers take back what they peek |
| MessageQueues.MessageQueue.Test | src/event/messagequeue.cpp:289-290 | The unlocked test of fStop_ puts a post in flight, or ends it on a stopped queue |
| MessageQueues.MessageQueue.Push | src/event/messagequeue.cpp:296-306 | The locked part of a post in flight adds its message, whatever fStop_ is by then |
| MessageQueues.MessageQueue.Post | src/event/messagequeue.cpp:285-307 | A post without anything in between: one message more, or nothing on a stopped queue |
| MessageQueues.MessageQueue.DoDelayPost | src/event/messagequeue.cpp:309-334 | The same with a trigger, on the heap |
| MessageQueues.MessageQueue.Clear | src/event/messagequeue.cpp:352-399 | Exactly the messages that are for the handler, if one is named, and have the id, if one is named, are removed and reported; the others keep their order, and the rest of the container is a heap again |
| MessageQueues.MessageQueue.ClearList | src/event/messagequeue.cpp:368-379 | The erasing loop keeps the others in order and reports the matching ones in order |
| MessageQueues.MessageQueue.Compact | src/event/messagequeue.cpp:383-398 | The in-place compaction of the container does the same |
| MessageQueues.MessageQueue.GetDelay | src/event/messagequeue.cpp:336-350 | 0 if a message is listed or has triggered, else the exact time to the first trigger, or none; without a peeked message 0 exactly when something can be delivered |
| MessageQueues.DelayIsRightIff | src/event/messagequeue.h:250-251 | The delay is 0 exactly when something can be delivered, if and only if no message is peeked or something else can be delivered too |
| MessageQueues.NextWait | src/event/messagequeue.cpp:255-264 | The wait is the smaller of the time left and the time to the next trigger |
| MessageQueues.Play | src/event/messagequeue.cpp:171-399 | Any calls on a new queue give the state of their history; if the handlers take back what they peek it is in order and nothing is lost |
| JsonWriter.FastWriter.WriteAll | src/json/jsoncpp.cpp:3240-3248 | The writer's document is Write of the value |
| JsonWriter.FastWriter.WriteValue | src/json/jsoncpp.cpp:3250-3296 | writeValue appends Print of the value, for values of any depth |
| JsonWriter.ValueToQuotedString | src/json/jsoncpp.cpp:3165-3227 | The quoted form of the C string, with and without the shortcut |
| JsonWriter.PlainEscape | src/json/jsoncpp.cpp:3170-3173 | The shortcut is the general case when nothing needs escaping |
| JsonWriter.UintToString | src/json/jsoncpp.cpp:145-151 | The digits stored backwards are the decimal digits |
| JsonWriter.IntToString | src/json/jsoncpp.cpp:3087-3106 | The decimal text of every integer above -2^63 |
| JsonRoundTrip.ParseUndoesWrite | src/json/jsoncpp.cpp:288-327 | Reading what the writer printed succeeds and gives the value back, for every printable value of any depth |
| JsonRoundTrip.ValueReads | src/json/jsoncpp.cpp:329-400 | The same in front of any text that does not continue a number, by induction over the value |
| JsonRoundTrip.ItemsRead | src/json/jsoncpp.cpp:641-676 | Printed array elements are read back in order behind those already read |
| JsonRoundTrip.MembersRead | src/json/jsoncpp.cpp:586-639 | Printed object members are read back in key order |
| JsonRoundTrip.EscapeScans | src/json/jsoncpp.cpp:574-584 | An escaped string ends at its closing quote and not before |
| JsonRoundTrip.EscapeDecodes | src/json/jsoncpp.cpp:792-843 | Decoding an escaped string gives the string, for all escapes and control characters |
| JsonRoundTrip.DigitsAreExact | src/json/jsoncpp.cpp:709-723 | The threshold test accepts digits exactly when their value does not exceed the limit, and then it is their value |
| JsonRoundTrip.IntegersAreExact | src/json/jsoncpp.cpp:688-734 | Digits with an optional minus become an integer exactly when the value lies in -2^63 to 2^64-1, and then that value; otherwise the double path |
| JsonRoundTrip.PrintedIntDecodes | src/json/jsoncpp.cpp:688-734 | A printed integer decodes to itself |
| JsonRoundTrip.PrintHasNoNul | src/json/jsoncpp.cpp:3165-3227 | Printed text holds no NUL |
| JsonConformance.ParseReads | src/json/jsoncpp.cpp:288-327 | Parsing a text that denotes a value after RFC 8259 gives that value: white space anywhere, all escapes, surrogate pairs, members in any order and repeated, fractions and exponents; and text behind it that does not continue a number does not matter |
| JsonConformance.NodeReads | src/json/jsoncpp.cpp:329-400 | The same for every value inside a text, by induction over its syntax tree |
| JsonConformance.StringReads | src/json/jsoncpp.cpp:792-843 | A string of RFC 8259 is one token and decodes to what its characters and escapes stand for, in UTF-8 |
| JsonConformance.Utf8Is | src/json/jsoncpp.cpp:99-126 | codePointToUTF8 gives the octets of RFC 3629 for every code point |
| JsonConformance.PairDecodes | src/json/jsoncpp.cpp:845-872 | Two escapes of a surrogate pair are the code point of the pair |
| JsonConformance.NumberDecodes | src/json/jsoncpp.cpp:688-734 | A number of RFC 8259 is its decimal value if it is an integer in range, and otherwise the number sscanf reads from its text |
| JsonConformance.ItemsAreRead | src/json/jsoncpp.cpp:641-676 | The elements of an array are read in order, with white space around each |
| JsonConformance.FieldsAreRead | src/json/jsoncpp.cpp:586-639 | The members of an object are assigned in the order of the text |
| JsonConformance.SkipsGap | src/json/jsoncpp.cpp:490-498 | Exactly the white space in front of a token is skipped |
| JsonConformance.DenotesOnce | src/json/jsoncpp.cpp:288-327 | A text denotes one value at most |
| JsonMembers.InsertAssigns | src/json/jsoncpp.cpp:2464-2486 | Assigning to a name keeps the map in the order of strcmp and changes the value of that name only |
| JsonMembers.InsertAllHolds | src/json/jsoncpp.cpp:586-639 | After all assignments of a text a name is in the map with the value of its last occurrence, whatever the order of the text, and the map is in order |
| JsonMembers.SortedUnique | src/json/jsoncpp.cpp:2464-2486 | A map is known by its members |
| JsonWritten.WriteDenotes | src/json/jsoncpp.cpp:3240-3296 | What FastWriter writes is a text of RFC 8259 that denotes the value |
| JsonLeniency.LoneMinusIsZero | src/json/jsoncpp.cpp:688-734 | A minus sign without digits is read as 0 |
| JsonLeniency.RestIsIgnored | src/json/jsoncpp.cpp:288-327 | Whatever follows the first value is ignored |
| JsonLeniency.TrailingComma | src/json/jsoncpp.cpp:586-639 | Behind any members: a comma before the closing brace is accepted exactly if the last member name is empty |
| JsonLeniency.LeadingZeros | src/json/jsoncpp.cpp:688-734 | Any digits are a number, with leading zeros too |
| JsonLeniency.RawBytesInString | src/json/jsoncpp.cpp:792-843 | Any bytes but quote and backslash may stand in a string, control characters included |
| JsonLeniency.EscapeLetters | src/json/jsoncpp.cpp:800-834 | The one-letter escapes are those of JSON, and every other letter but u fails |
| JsonLeniency.Hex4Iff | src/json/jsoncpp.cpp:874-902 | A code point takes four hexadecimal digits, upper or lower case, and fails exactly without them |
| JsonLeniency.HighSurrogateIff | src/json/jsoncpp.cpp:845-872 | A high surrogate takes the low ten bits of any escape behind it, and fails exactly when there is none |
| JsonLeniency.LoneLowSurrogate | src/json/jsoncpp.cpp:845-872 | A low surrogate on its own is taken as a code point |
| JsonLeniency.CommentReplacesComma | src/json/jsoncpp.cpp:586-639 | Behind a comment that follows a member any token but a closing brace stands for the comma |
| JsonLeniency.ColonAsComma | src/json/jsoncpp.cpp:586-639 | So two members separated by a comment and a colon are an object |
| JsonParser.Reader.ParseDocument | src/json/jsoncpp.cpp:288-327 | The reader's result is Parse of the document, which by JsonConformance.ParseReads is the value a JSON text denotes |
| JsonParser.Reader.ReadOneValue | src/json/jsoncpp.cpp:329-400 | readValue agrees with ReadValue on every input, well-formed or not |
| JsonParser.Reader.ReadMembers | src/json/jsoncpp.cpp:586-639 | readObject agrees with ReadObject, quirks included; what that makes of the members of a JSON text is in JsonConformance.FieldsAreRead and JsonMembers.InsertAllHolds |
| JsonParser.Reader.ReadElements | src/json/jsoncpp.cpp:641-676 | readArray agrees with ReadArray |
| JsonParser.Reader.ReadTokenAt | src/json/jsoncpp.cpp:419-488 | readToken agrees with ReadToken and moves behind the token |
| JsonParser.Reader.DecodeNumberToken | src/json/jsoncpp.cpp:688-734 | decodeNumber agrees with DecodeNumber |
| JsonParser.Reader.DecodeStringToken | src/json/jsoncpp.cpp:792-843 | decodeString agrees with DecodeString |
| JsonParser.Reader.DecodeUnicodeCodePoint | src/json/jsoncpp.cpp:845-872 | Surrogate pairs as in the specification function |
| ByteBuffers.MemoryRoundTrip | src/base/bytebuffer.cpp:81-188 | Every width and both byte orders: reading what was written gives the value modulo the width |
| ByteBuffers.ByteAt | src/base/bytebuffer.cpp:81-188 | The byte worth 256^i is the i-th from the end in network order and the i-th from the start in the other one |
| ByteBuffers.LowBytes | src/base/bytebuffer.cpp:171-178 | The three bytes that WriteUInt24 copies are the low ones in both orders |
| ByteBuffers.ZeroExtend | src/base/bytebuffer.cpp:99-114 | A three-byte value read into a zeroed word keeps its value in both orders |
| ByteBuffers.ByteBuffer.WriteBytes | src/base/bytebuffer.cpp:194-205 | Writing appends, whatever growth or compaction that takes; the version changes exactly if the bytes do not fit behind the end |
| ByteBuffers.ByteBuffer.ReadBytes | src/base/bytebuffer.cpp:152-160 | Reading removes a prefix, or fails and changes nothing |
| ByteBuffers.ByteBuffer.Consume | src/base/bytebuffer.cpp:225-230 | Consume drops a prefix, or fails and changes nothing |
| ByteBuffers.ByteBuffer.Resize | src/base/bytebuffer.cpp:207-223 | Resize keeps the contents up to the new size and makes old read positions invalid |
| ByteBuffers.ByteBuffer.WriteUInt | src/base/bytebuffer.cpp:162-188 | Appends the value's bytes in the order of the buffer, with the same account of the version |
| ByteBuffers.ByteBuffer.ReadUInt | src/base/bytebuffer.cpp:81-138 | Reads them back |
| ByteBuffers.ByteBuffer.WriteUInt24 | src/base/bytebuffer.cpp:171-178 | Appends the low 24 bits, with the same account of the version |
| ByteBuffers.ByteBuffer.ReadUInt24 | src/base/bytebuffer.cpp:99-114 | Reads 24 bits |
| ByteBuffers.ByteBuffer.SetReadPosition | src/base/bytebuffer.cpp:236-242 | Succeeds exactly for a position of the current version and brings back what was readable there |
| ByteBuffers.Rewind | src/base/bytebuffer.cpp:207-242 | A position taken, any writes, reads, Consume, Resize and Clear, and the position set again: refused exactly if the memory was replaced or cleared meanwhile; otherwise the readable bytes are those of then followed by everything written since |
| ByteBuffers.UndisturbedIff | src/base/bytebuffer.cpp:194-223 | The memory stays exactly for scripts without Resize and Clear whose bytes fit behind the end |
| Framing.ParseResumes | src/vzsdk/session.cpp:96-186 | The packets do not depend on where the stream is cut |
| Framing.ParseIsFrames | src/vzsdk/session.cpp:147-186 | The packets are a run of well-formed frames from the start, and what follows them does not begin with a frame |
| Framing.FramesParse | src/vzsdk/session.cpp:147-186 | Every stream of that shape is read that way |
| Framing.BadHeaderIsFinal | src/vzsdk/session.cpp:147-186 | Once a frame boundary shows a bad header no later packet is delivered |
| Sessions.Session.ProcessPacketProtocol | src/vzsdk/session.cpp:147-186 | The loop signals the JSON and binary packets of its data and reports how much it took |
| Sessions.Session.ProcessInput | src/vzsdk/session.cpp:128-145 | What was processed is consumed, the rest stays |
| Sessions.Session.OnReadEvent | src/vzsdk/session.cpp:96-108 | Whatever chunks arrive, delivered packets and unread bytes are those of the whole received stream; which packets those are is in Sessions.DeliveredCount |
| Sessions.DeliveredCount | src/vzsdk/session.cpp:188-203 | A packet is delivered as often as it was received if it is a JSON or a binary one, and never otherwise |
| Sessions.DeliveredInOrder | src/vzsdk/session.cpp:188-203 | The delivered packets are a subsequence of the received ones |
| Sessions.Session.AsyncWrite | src/vzsdk/session.cpp:231-244 | One frame is added behind what was sent and what still waits |
| Sessions.Session.TryToWriteData | src/vzsdk/session.cpp:246-259 | A partial send moves a prefix of the waiting bytes to the socket |
| WirePath.EndToEnd | src/vzsdk/sessionmanager.cpp:97-210 | From any arrived part of the stream the decoded values are a prefix of those sent, in order, and all of them once everything has arrived |
| WirePath.SessionsAgree | src/vzsdk/session.cpp:96-259 | The same for two sessions between which a pipe holds what one has sent and the other not received |
| WireRuns.Converse | src/vzsdk/sessionmanager.cpp:97-210 | Two managers, one pipe, any script of requests, heartbeats, partial sends and arrivals: the values posted by the receiver are a prefix of those asked for, in order and each once, and all of them when nothing waits or is under way; the sender posts one notice per push or unknown session |
| WireRuns.Receive | src/vzsdk/session.cpp:96-145 | Some bytes arrive: the receiver's posts are the replies to all packets delivered so far |
| WireRuns.SendRequest | src/vzsdk/sessionmanager.cpp:97-115 | A request to any session keeps what is sent, waiting and received in step with what was asked for |
| WireRuns.AnswersOfReplies | src/vzsdk/sessionmanager.cpp:192-210 | The values in the posts are those the delivered packets decode to |
| WireBinary.ReplyIsAnswered | src/vzsdk/sessionmanager.cpp:192-249 | A received JSON or binary packet whose text up to the first NUL is any JSON text is answered with the value the text denotes and the whole payload, once and in its place among the other posts |
| WireBinary.BinaryIsAnswered | src/vzsdk/sessionmanager.cpp:192-249 | The same for what a FastWriter wrote, in front of a NUL and a picture, whatever sscanf accepts |
| WirePath.RequestDecodes | src/vzsdk/sessionmanager.cpp:192-210 | The payload of a request yields its value |
| WirePath.FindEndString | src/vzsdk/sessionmanager.cpp:242-249 | The text for the reader ends at the first NUL |
| WireBinary.TextEnds | src/vzsdk/sessionmanager.cpp:242-249 | A text without NUL that fills the payload, or is followed by a NUL and anything, is what the reader gets |
| WirePath.SessionManager.OnRequestMessage | src/vzsdk/sessionmanager.cpp:97-115 | One frame more on the session's stream, or a not-found answer |
| WirePath.SessionManager.OnSessionPacketEvent | src/vzsdk/sessionmanager.cpp:192-210 | One response if the payload parses, else none |
| Fifos.RunConserves | src/base/stream.cpp:874-971 | First in, first out for every run of all operations: nothing lost, repeated or reordered |
| Fifos.FillAt | src/base/stream.cpp:1001-1026 | A free slot holds the last byte written to its offset; reads and other writes do not matter; readable bytes are not disturbed |
| Fifos.FillThenAppend | src/base/stream.cpp:963-971 | Offset writes that cover the first n slots in any order, mixed with reads, append exactly the bytes last written there |
| Fifos.CoverFits | src/base/stream.cpp:963-971 | Covered slots can be appended |
| Fifos.ClosedDrains | src/base/stream.cpp:979-1006 | After Close reads hand out what is left and then only end of stream; every write gives end of stream |
| Fifos.WritesAll | src/base/stream.cpp:898-919 | A write into an open buffer with room takes in all its bytes, or fills the buffer |
| Fifos.WritesAllAt | src/base/stream.cpp:1001-1026 | A write at an offset fills every slot it reaches and changes nothing else |
| Fifos.ReadsAll | src/base/stream.cpp:874-896 | A read hands out all it was asked for, or all there is |
| Fifos.ResultsAre | src/base/stream.cpp:979-1006 | When a call succeeds, has to wait, or is over |
| FifoBuffers.RotatedSlice | src/base/stream.cpp:988-993 | The two-part copy out of the ring is a slice of the rotated ring |
| FifoBuffers.RotatedOverlay | src/base/stream.cpp:1013-1020 | The two-part copy into the ring is an overlay of the rotated ring |
| FifoBuffers.RotateMore | src/base/stream.cpp:885-886 | Advancing the read position rotates the ring |
| FifoBuffers.FifoBuffer.Read | src/base/stream.cpp:874-896 | Hands out the first bytes, as many as asked for or all there are; SE_WRITE exactly when a full buffer stops being full |
| FifoBuffers.FifoBuffer.Write | src/base/stream.cpp:898-919 | Appends all bytes or fills the buffer; SE_READ exactly when an empty buffer stops being empty |
| FifoBuffers.FifoBuffer.ReadOffsetLocked | src/base/stream.cpp:979-999 | The bytes at an offset, or BLOCK, or EOS when closed |
| FifoBuffers.FifoBuffer.WriteOffsetLocked | src/base/stream.cpp:1001-1026 | One offset write, or BLOCK, or EOS when closed |
| FifoBuffers.FifoBuffer.SetCapacity | src/base/stream.cpp:839-856 | Keeps the readable bytes, or fails and changes nothing, exactly when they do not fit |
| FifoBuffers.FifoBuffer.GetReadData | src/base/stream.cpp:926-931 | A window of the next readable bytes, empty only if there are none |
| FifoBuffers.FifoBuffer.ConsumeReadData | src/base/stream.cpp:933-942 | One Read step of that many bytes |
| FifoBuffers.FifoBuffer.GetWriteBuffer | src/base/stream.cpp:944-961 | A window of the next free slots, empty only if there are none, the whole buffer if nothing is readable, and nothing when closed |
| FifoBuffers.FifoBuffer.ConsumeWriteBuffer | src/base/stream.cpp:963-971 | One Append step |
| FifoBuffers.FifoBuffer.ReadInPlace | src/base/stream.cpp:926-942 | Reading through the window is Read of the same bytes |
| FifoBuffers.FifoBuffer.WriteInPlace | src/base/stream.cpp:944-971 | Writing through the window is Write of the same bytes |
| Flows.Flow | src/base/stream.cpp:1194-1250 | On every exit the bytes found and read are the bytes written and held; a caller with data_len gets the held ones back, without it they are lost, and there are some whenever a write stops it; it ends well only at the end of the source with nothing held, and otherwise with the result of the failed call |
| Flows.Pump | src/base/stream.cpp:1194-1250 | Repeated calls after interruptions deliver the source's bytes in order, all of them after a call that ends well |
| Sha1Transforms.Blk | src/base/sha1.cpp:112-122 | The in-place schedule of sixteen words gives word t of the eighty-word schedule |
| Sha1Transforms.R | src/base/sha1.cpp:124-139 | A macro is one round of FIPS 180-4 with renamed variables |
| Sha1Transforms.EightyRounds | src/base/sha1.cpp:170-257 | The unrolled rounds give the variables after round 80 |
| Sha1Transforms.Transform | src/base/sha1.cpp:155-268 | The state becomes the compression of the state and the block |
| Sha1Transforms.RoundForm | src/base/sha1.cpp:124-139 | The macro's functions and order of additions are those of the standard |
| Sha1Transforms.SwapLoads | src/base/sha1.cpp:112-117 | The byte swap turns a little-endian load into the big-endian word |
| Sha1Transforms.TraceOf | src/base/sha1.cpp:155-268 | The standard's schedule and working variables as sequences |
| Sha1Spec.BlocksSplit | src/base/sha1.cpp:282-316 | Complete blocks can be hashed one part after the other |
| Sha1Contexts.CountsAdd | src/base/sha1.cpp:293-302 | The two-word count with its carry test adds modulo 2^64 |
| Sha1Contexts.CountOctets | src/base/sha1.cpp:320-325 | The bytes of finalcount are the octets of the bit count, high word first |
| Sha1Contexts.PadStops | src/base/sha1.cpp:327-329 | The padding loop stops after exactly the standard's number of zeros |
| Sha1Contexts.Context.Update | src/base/sha1.cpp:282-316 | Count, state and buffer describe the message extended by the data, however it is cut |
| Sha1Contexts.Context.Final | src/base/sha1.cpp:319-345 | The digest is the standard's digest of the message |
| Hmacs.HashChunks | src/base/sha1.cpp:271-345 | Init, any Updates and Final give the digest of the joined message |
| Hmacs.Memxor | src/base/helpmethods.cpp:160-168 | The first bytes are xored, the others stay |
| Hmacs.HmacSha1 | src/base/helpmethods.cpp:173-221 | HmacSha1 is the HMAC of RFC 2104 for keys of any length |
| Base64.EncodeFromArray | src/base/base64.cpp:98-136 | The loop gives the encoding of section 4 of RFC 4648 |
| Base64.GroupDigits | src/base/base64.cpp:98-136 | The bits the loop selects are the digits of the 24-bit group |
| Base64.GetNextQuantum | src/base/base64.cpp:138-189 | The loop gives values, padding and position of the next quantum in all modes; what they are for encodings and data around them is in Base64Modes |
| Base64.DecodeFromArray | src/base/base64.cpp:204-256 | Success, bytes and used length are those of the recursive decoder for all flags, and so those that the lemmas of Base64Modes state |
| Base64.FullQuantumMoves | src/base/base64.cpp:138-189 | A full quantum carries no pads and takes at least four characters |
| Base64RoundTrip.StrictIsBijection | src/base/base64.cpp:98-256 | Strict decoding succeeds with s if and only if the input is the encoding of s, and then uses all of it |
| Base64RoundTrip.DecodesEncodings | src/base/base64.cpp:98-256 | Every mode that does not forbid pads decodes every encoding completely; other characters in between and missing pads are in Base64Modes |
| Base64RoundTrip.AcceptsOnlyEncodings | src/base/base64.cpp:138-256 | What strict decoding accepts re-encodes to itself |
| Base64RoundTrip.PackedChars | src/base/base64.cpp:225-247 | Values that leave no bits over are the digits of their bytes, so pad bits are canonical |
| Base64Modes.AnyPadsDecode | src/base/base64.cpp:138-256 | Where pads are optional, data that is an encoding with or without pads, but for characters that the mode ignores, is decoded completely |
| Base64Modes.NoPadsDecode | src/base/base64.cpp:138-256 | Where pads are forbidden, the same for encodings without pads |
| Base64Modes.AllPadsDecodeIff | src/base/base64.cpp:138-256 | Where pads are demanded, encodings give the same bytes, and succeed if and only if no ignored character follows a last full group |
| Base64Modes.StopsAtIllegal | src/base/base64.cpp:138-256 | The strict and the white-space mode stop at the first illegal character with what was encoded in front of it; exactly when that counts as success |
| Base64Modes.ReadsText | src/base/base64.cpp:204-256 | All of these, from any position, by induction over what was encoded |
| SignalThreadSpec.LifetimeIsExact | src/base/signalthread.cpp:66-164 | In every run the object is deleted at most once, its count is positive before, and every started run is signalled once, stopped by Destroy, or goes on |
| SignalThreadSpec.DeletedAfterTheWorker | src/base/signalthread.h:132-152 | The deleting step comes after the worker has posted or been joined |
| SignalThreadSpec.GivenUpIsDeleted | src/base/signalthread.cpp:78-149 | However the threads are scheduled, a given-up object is deleted within a bounded number of steps |
| SignalThreadSpec.Progress | src/base/signalthread.cpp:78-159 | A given-up object is never stuck |
| SignalThreadSpec.StepInv | src/base/signalthread.cpp:66-159 | Every step keeps count, worker, life and signals consistent, except a waiting Destroy inside OnMessage |
| SignalThreadSpec.DeletedIffNeverWaitsInside | src/base/signalthread.cpp:66-164 | A given-up object is deleted, once the threads have run to their ends, if and only if no Destroy(true) was called inside OnMessage |
| SignalThreadSpec.WaitingInsideIsFatal | src/base/signalthread.cpp:78-149 | After any waiting Destroy inside OnMessage, whatever follows, the object is never deleted |
| SignalThreadSpec.RestartedWorkIsQuit | src/base/signalthread.cpp:114-118 | A running worker may continue if and only if it is the first run and Destroy is not stopping it |
| SignalThreadSpec.DestroyInWorkDoneLeaks | src/base/signalthread.cpp:78-149 | From a new object: Destroy(true) in OnWorkDone drops the count twice, below zero, and nothing is left that could delete the object |
| SignalThreadSpec.DestroyInSignalDeadlocks | src/base/signalthread.cpp:88-94 | From a new object: Destroy(true) in a handler that has restarted the thread leaves everybody waiting |
| SignalThreads.SignalThread.Start | src/base/signalthread.cpp:66-76 | The Start step |
| SignalThreads.SignalThread.Release | src/base/signalthread.cpp:101-112 | The Release step |
| SignalThreads.SignalThread.Destroy | src/base/signalthread.cpp:78-93 | The Destroy step up to the join |
| SignalThreads.SignalThread.FinishDestroy | src/base/signalthread.cpp:94-99 | The rest of Destroy(true) |
| SignalThreads.SignalThread.PostDone | src/base/signalthread.cpp:151-159 | The locked part of Run |
| SignalThreads.SignalThread.AfterWorkDone | src/base/signalthread.cpp:123-145 | OnMessage from OnWorkDone to SignalWorkDone |
| SignalThreads.SignalThread.AfterSignal | src/base/signalthread.cpp:145-148 | The rest of OnMessage |
| Dispatch.WindowKeeps | src/event/physicalsocketserver.cpp:1238-1263 | Whatever a handler adds or removes, a pass finds between its iterators exactly the dispatchers of its start that it has not come to and that have not been removed |
| Dispatch.Take | src/event/physicalsocketserver.cpp:1567-1574 | Taking the next dispatcher settles it and those removed before it |
| Dispatch.AllSettled | src/event/physicalsocketserver.cpp:1570-1638 | At the end every dispatcher of the start has been taken properly or is gone |
| Dispatch.ReplayParts | src/event/physicalsocketserver.cpp:1257-1262 | Removals adjust the iterators of nested passes independently |
| Dispatch.ListedIsTaken | src/event/physicalsocketserver.cpp:1565-1638 | A pass takes every dispatcher of its start that nobody removes |
| Dispatch.AddedIsListed | src/event/physicalsocketserver.cpp:1238-1263 | A dispatcher that was added stays in the list until it is removed |
| PhysicalSocketServers.PhysicalSocketServer.Add | src/event/physicalsocketserver.cpp:1238-1247 | Appends unless present |
| PhysicalSocketServers.PhysicalSocketServer.Remove | src/event/physicalsocketserver.cpp:1249-1263 | Erases and moves every registered index behind it down by one |
| PhysicalSocketServers.PhysicalSocketServer.Pass | src/event/physicalsocketserver.cpp:1565-1638 | A pass under any handlers, nested passes included, takes every dispatcher of its start once, in order and never after its removal, or not at all if it was removed before; additions wait |
| PhysicalSocketServers.AddThenPass | src/event/physicalsocketserver.cpp:1238-1247 | A pass after an Add takes the dispatcher that was added, unless it is removed meanwhile |
| PhysicalSocketServers.PosixTakesIff | src/event/physicalsocketserver.cpp:1339-1382 | The POSIX loop takes a dispatcher that nobody removes if and only if no removal moves it behind the index before its turn |
| PhysicalSocketServers.PosixTakesAll | src/event/physicalsocketserver.cpp:1339-1382 | It takes all those as long as handlers remove nothing at or before the index; adding, and removing what is to come, is harmless |
| PhysicalSocketServers.PosixSkips | src/event/physicalsocketserver.cpp:1339-1382 | It skips the next dispatcher if and only if the handler removes something at or before the index |

## Left out

- ThreadSend.SendNeverDeadlocks: does not cover a target that stops serving its Sends, which SendQuit covers, or a select error that ends the Send's wait, because the code then returns from Wait without a wake-up and promises nothing.
- MessageQueueHistory.CallsDeliverInOrder: says nothing about calls that return a message past a peeked one, because the order fails there.
- MessageQueueClear.ClearForgetsCalls: compares message loops, not single Gets, because one Get returns the next message where without the Clear it returned a removed one.
- JsonConformance.ParseReads: leaves out texts with the character U+0000 in a string or a name, because the reader keeps C strings and cuts there (JsonLeniency.RawBytesInString), and lone surrogates, which denote nothing.
- JsonLeniency.RawBytesInString: the families of JsonLeniency are not all that the reader accepts beyond JSON; the accepted language as a whole is the function Parse.
- JsonWriter.FastWriter.WriteAll: leaves out doubles, whose text comes from `snprintf`, and -2^63.
- JsonWriter.FastWriter.WriteValue: leaves out the same.
- SendQuit.SendPromiseIff: leaves out select errors and Sends of the thread itself; what wakes a sender is in ThreadSend.
- MessageQueueClear.ClearForgets: leaves out runs that overwrite a peeked message, because the message lost can then be another one.
- MessageQueueCalls.Get: a Get or Peek of a handler inside another call neither waits nor is interrupted itself; `fPeekKeep_` is touched by the queue's own thread and Clear only, one at a time.
- Base64RoundTrip.DecodesEncodings: leaves out the mode that forbids pads, because it stops at the first pad; Base64Modes.NoPadsDecode has what it decodes.
- Base64Modes.ReadsText: data that is no encoding once the ignored characters are taken out (a length that leaves one digit over, or pads in the middle) is described by the recursive decoder only, except for the strict mode, where Base64RoundTrip.StrictIsBijection covers all data.
- SignalThreadSpec.GivenUpIsDeleted: assumes that the main thread outlives the object, that DoWork returns, and that the client gives the object up once.
- FifoBuffers.FifoBuffer.ConsumeReadData: needs a capacity above zero, because the code divides by it; reads and writes do not.
- Sha1Spec.Sha1: the bit count is taken modulo 2^64, as in the code; FIPS 180-4 defines the digest for shorter messages only.
- JsonWriter.IntToString: leaves out -2^63, whose negation overflows in the code.
- Doubles in JSON: `sscanf` is a parameter of the reader, `snprintf` and the printing of doubles are not part of the model, and neither are comments kept by the reader, error texts, recovery after errors, the YAML and null-dropping options of the writer, StyledWriter and Path.
- The JSON reader's stack of nodes: values are built bottom-up instead of being written through pointers, which shows no difference to a caller.
- Wrap-around of 32-bit times, message numbers and buffer versions: the models count without bound, as in one window that does not wrap. Sizes near the limits of `size_t` are not modelled either.
- Hardware memory ordering of the unlocked reads of `has_sends_` and `ready`: steps are sequentially consistent.
- The heap algorithms of the C++ library are given by their contracts; sorting stands for any arrangement they may choose.
- MessageQueueManager, its lock, time-sensitive logging, and the data attached to messages.
- Real sockets, `select` and its descriptors, WSA calls, POSIX signals, DNS and ping: sockets are scripts of results, the wake-up is a sticky bit.
- The polling loop before a wait, which takes new dispatchers into the same round, and CheckSignalClose.
- SessionManager's connect, reconnect and disconnect logic, the heartbeat timer, the request and API wrappers and device modules, logging, smart pointers and file streams.
- AsyncWriteStream: its Flush can reorder writes, so there is no order to prove.
- The static workspace of SHA1Transform and the wiping of local variables: the block is a local copy.
- `Thread` start, priorities and names, the destruction order inside `delete`, and `OnMainThreadDestroyed`.
- IP address text conversion, string splitting, URL and hex escaping, HmacSha1ToBase64: easy compared with the above.
