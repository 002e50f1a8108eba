# A model of the restaurant order system

A server holds restaurant orders under one mutex. Updater clients create orders and move items and
orders forward; every change is broadcast, as a message, into one queue per display client; each
display rebuilds the server's map of orders from the messages that it reads off its connection.
Messages travel as text (`src/wire.cpp`) in length-prefixed frames (`src/io.cpp`) over partial reads
and writes (`src/csapp.cpp`).

The central result is `Replication.DisplaysReplicate`: in every reachable state, under every
interleaving of threads that differ in single statements, the bytes that a display has not read
decode without error, and what they say, followed by everything else still on its way to that
display, turns what it shows into exactly the server's orders.

## How the files fit together

- Values: `Model`, `Text`, `Wire`, `Framing`, `ServerSpec`, `Protocol` say what the operations compute, on
  values.
- What these must be: `Grammar` (which texts stand for which orders and messages), `ServerLaws` (what each
  request and each message does to the stored orders and to a view) and `ProtocolLaws` (who is let in, and
  what each message is answered) say it as relations between fields, without those functions, and show that
  the functions compute exactly that.
- What those values satisfy: `WireProofs` (codec), `ServerProofs` (identities, lifecycle, replay),
  `Delivery` (work and delivery), `History` (the broadcast log as a history), `Capacity` and `Growth`
  (how long the texts of orders are, and get).
- The program's own loops and objects, proved against those functions: `Text.Find`, `Text.SplitLoop`,
  `WireLoops`, `Rio`, `IO`, `Objects`, `ServerObject`, `DisplayObject`, `ClientObject`. Objects carry
  ghost footprints (`Repr`), and their contracts equate what they hold with the value functions.
- The running system: `Machine` is a state machine whose steps are single statements: locking and
  unlocking the server mutex and each queue mutex, pushing, posting, waiting, popping, sending bytes,
  breaking a connection in the middle of a frame, reading a frame at the far end. `MachineLocks`,
  `MachineLog`, `MachineFlow`, `MachineLinks`, `MachineSessions`, `MachineReplies` and `MachineLeaving`
  each define one invariant and show that every step keeps it; `MachineRuns` puts them together for
  whole runs. `MachineAnswers`, `MachineEnds` and `MachineSnapshots` say what follows for each reply, for the
  beginning and the end of a connection, and for what a display is sent when it joins.
- What follows for displays: `Replication`, `Retention` and `Convergence`; for work, lifecycle and
  identities: `MachineWork`.

Strings are sequences of bytes written as `char`. Integers are unbounded, and the 32-bit bounds of the
program appear where it has them (`INT_MAX`, `PositiveInt`).

## What the model shows about the program

- The order status is a function of the item statuses exactly if items arrive NEW
  (`StrongLifecycleNeedsNew`); the decoder accepts others, and for those only the weaker form holds.
- Two unfinished items of one id, or an order none of whose items arrives NEW, can never be delivered:
  lookups find the first item of an id only, and only a NEW item starts an order.
  `DeliverableExactly` says exactly which orders these are.
- A new order can be accepted and then be too long for the displays (`NearLimitOrdersDoNotFit`). The
  failing send removes the display; `KeptExactly` says that nothing else does while the connection holds.
- Room for the growth by the id is not enough. `OrdersOutgrowFrames` gives an order that fits under every
  id while it is new, and one accepted request that brings it past the frame: its statuses get longer
  names. A display that joins then is removed when it comes to that order (`NeverPastLongMessages`).
  `AlwaysFitsExactly` says which new orders never outgrow the frame, and `RoomyExactly` how long their
  text may be. For orders as the updater program sends them, with distinct item ids, the exact bound for
  any id is 9997 - 17(n + 1) bytes for n items (`CanonicalSmallExactly`); it is enough for every order that
  can be decoded (`ShortTextsAreSmall`), and if all orders keep to it no display is removed while its
  connection holds (`DisplaysAreKept`).
- The checks for missing fields in `updater_loop` (`src/client.cpp:70-73`, `src/client.cpp:78-81`,
  `src/client.cpp:90-93`) never fail: the decoder lets no such message through (`DecodedRequestsAreCalled`).
- `README.txt:38-40` of the repository says that the server mutex is released before messages are
  queued. The code holds it during the whole broadcast (`src/server.cpp:89-98`). The model follows the
  code, and freedom from deadlock is shown from the order in which it takes the locks
  (`LocksAreOrdered`, `NoReachableDeadlock`).
- The encoder accepts messages that do not come back: id 0 or negative ids inside orders, quantities
  that are not positive, and texts that hold separators. `RoundTripExactly` gives the exact domain.

## Model

| member | source | states |
|---|---|---|
| Model.OperatorEqualsIsOneSided | src/message.cpp:80-92 | operator== holds in both directions exactly for structurally equal messages; exactly what one direction misses; and that it is not symmetric |
| Model.FindItem | src/model.cpp:70-77 | the first item with the id, or none exactly if no item has it |
| Text.JoinSplit | include/util.h:37-67 | joining the pieces of any string gives the string back |
| Text.SplitJoin | include/util.h:37-67 | splitting a join gives the pieces back if and only if none holds the separator |
| Text.SplitPieceFree | include/util.h:37-67 | pieces hold neither the separator nor a character that the string does not hold |
| Text.SplitLoop | include/util.h:37-67 | the loop over find and substr computes the split |
| Text.ParsePositiveIntAccepts | src/wire.cpp:88-104 | exactly which texts are accepted as which number: spaces, an optional plus, digits with any leading zeros, 1 to 2^31-1 |
| Text.ParsePrinted | src/wire.cpp:88-104 | a printed integer is read back if and only if it is in 1 to 2^31-1, and rejected otherwise |
| Text.ToStringExactly | src/wire.cpp:112-129 | an integer is printed as exactly its decimal text: digits without leading zeros, behind a minus if it is negative |
| Text.ValueIsPositional | src/wire.cpp:88-104 | digits are read in the positional system: those before the last w count 10^w fold |
| Text.JoinAppend | src/wire.cpp:116-130 | between two joins there is one separator, as between two pieces |
| WireLoops.EncodeOrderLoop | src/wire.cpp:108-133 | the appending loop spells out the id, the status and the items, each with its five fields, or rejects an order that is missing or empty |
| WireLoops.DecodeOrderLoop | src/wire.cpp:137-175 | the parsing loop reads an order from a text if and only if the text is one of that order: three fields, items of exactly five fields; any other text is an invalid message |
| WireProofs.OrderRoundTrip | src/wire.cpp:108-175 | an order with items, positive ids and quantities, valid statuses and separator-free descriptions is decoded back equal |
| WireProofs.OrderImage | src/wire.cpp:137-175 | every order that is decoded has an item, valid ids, quantities and statuses, and no separator of its own or an enclosing level in any field |
| WireProofs.RoundTripExactly | src/wire.cpp:231-393 | encoding then decoding returns the same message if and only if it is sendable; no other message survives |
| WireProofs.DecodeImageExactly | src/wire.cpp:312-393 | the messages that some text decodes to are exactly the decodable ones |
| WireProofs.Canonicalises | src/wire.cpp:231-393 | whatever is decoded can be encoded again exactly if its text, where the type has one, is not empty, and the new text decodes to the same message |
| Grammar.DecodeItemExactly | src/wire.cpp:157-171 | which texts are read as which item: exactly five fields without a colon, three of them texts of positive integers, one the name of a status |
| Grammar.DecodeOrderExactly | src/wire.cpp:137-175 | which texts are read as which order: exactly three fields, the last of them item texts with a semicolon between neighbours |
| Grammar.DecodeExactly | src/wire.cpp:312-393 | which texts are read as which message: the name of its type and exactly the fields of that type, which leaves the other members unset; every other text is refused as an invalid message |
| Grammar.EncodeOrderExactly | src/wire.cpp:108-133 | which text an order is written as, field by field; only an order without items has none |
| Grammar.EncodeExactly | src/wire.cpp:231-309 | which text a message is written as, field by field, and which messages are refused |
| Grammar.EncodeIsShortest | src/wire.cpp:231-393 | of all the texts that are read as a message, the one that it is written as is the only shortest |
| Framing.LengthPrefixParses | src/io.cpp:13-34 | lengths 1 to 9999 have a prefix of four digits that is read back as that length |
| Framing.PrefixIsCanonical | src/io.cpp:13-34 | every prefix that is accepted is the prefix made for the length that it is read as |
| Framing.FrameExactly | src/io.cpp:13-50 | the bytes of a frame: four digits that say how long the rest is, the payload, a newline |
| Framing.ReceiveConsumes | src/io.cpp:52-79 | receiving, also when it fails, takes the prefix and as many bytes as it announces, and waits while they are not there |
| Framing.FrameRoundTrip | src/io.cpp:41-79 | sending succeeds exactly up to 9998 bytes, and receiving returns the payload and stops at the end of the frame, whatever follows |
| Framing.ReceiveAcceptsFrames | src/io.cpp:52-79 | receiving returns a payload if and only if the stream starts with its frame |
| Framing.ProperPrefixBlocks | src/io.cpp:52-79 | no proper prefix of a frame is accepted: the receiver waits, and fails at end of file |
| Framing.FrameStream | src/io.cpp:41-79 | repeated receiving on the concatenation of frames returns all the payloads and leaves an unfinished rest untouched |
| Framing.UniquelyDecodable | src/io.cpp:41-79 | streams of frames have the same bytes if and only if they carry the same payloads |
| Rio.RioReadn | src/csapp.cpp:758-777 | the first min(n, available) bytes in order, whatever the partial reads and interrupts; -1 if and only if a call that it makes fails, with nothing lost or duplicated |
| Rio.RioWriten | src/csapp.cpp:784-801 | all the bytes once and in order with no failed call, or -1 at the first call that fails, or at one that writes nothing, with a proper prefix written |
| Rio.RioBuffer.Read | src/csapp.cpp:814-839 | buffered plus unread bytes are consumed in order; nothing outside the caller's range is written; 0 only at end of file |
| Rio.RioBuffer.Refill | src/csapp.cpp:818-829 | refilling, with interrupts, keeps the stream as the callers see it |
| Rio.RioBuffer.Readnb | src/csapp.cpp:858-873 | like rio_readn, on the buffered stream |
| Rio.RioBuffer.Readlineb | src/csapp.cpp:880-902 | one line of the stream, stored with a NUL inside the caller's buffer; the following calls continue where it ends |
| Rio.LineStops | src/csapp.cpp:880-902 | a line ends with the first newline, at end of file or at the limit, and nowhere else |
| IO.Send | src/io.cpp:41-50 | the whole frame is written, or the call fails with a proper prefix of it written, or with nothing if it does not fit |
| IO.ReceiveFrom | src/io.cpp:52-79 | the outcome depends on the bytes alone, whatever the chunks that they arrive in |
| Objects.OrderObject.AddItem | src/model.cpp:62-64 | the order gets the item at its end and owns it |
| Objects.OrderObject.Assign | src/model.cpp:35-45 | assignment appends copies of the items without clearing, so that it is a true copy exactly if there were none |
| Objects.OrderObject.Duplicate | src/model.cpp:28-45 | the copy is equal and shares no object with the original |
| Objects.OrderObject.FindItem | src/model.cpp:70-77 | the loop finds the first item with the id |
| Objects.OrderObject.Equals | src/model.cpp:47-60 | the loop decides structural equality |
| Objects.MessageObject.Assign | src/message.cpp:59-74 | the message becomes an equal one with its own copy of the order |
| Objects.MessageObject.Duplicate | src/message.cpp:76-78 | the copy is equal, and everything reachable from it is new |
| Objects.MessagesEqual | src/message.cpp:80-92 | the comparison of two message objects decides the one-sided operator== |
| Objects.MessageQueue.Enqueue | src/message_queue.cpp:14-19 | the message is appended |
| Objects.MessageQueue.Dequeue | src/message_queue.cpp:21-34 | the oldest message, which the queue then shares nothing with, or null exactly on a time-out or an empty queue |
| ServerObject.Server.Broadcast | src/server.cpp:72-75 | every registered queue gets one equal message of its own; orders stay as they are |
| ServerObject.Server.RegisterDisplay | src/server.cpp:77-82 | the client is registered and its queue gets one message for each stored order, by increasing id |
| ServerObject.Server.UnregisterDisplay | src/server.cpp:84-87 | exactly that client is no longer registered |
| ServerObject.Server.TakeMessage | src/message_queue.cpp:21-34 | the message taken from a registered client's queue is the oldest, and shares nothing with any stored order or queue |
| ServerObject.Server.ProcessNewOrder | src/server.cpp:89-99 | the order is stored under the next id, which is returned, with the items that arrived in their places; nothing else is different, and every queue gets that order |
| ServerObject.Server.ProcessItemUpdate | src/server.cpp:101-136 | the update is accepted exactly if it moves the first item with the id one step forward; state, queues and the text of each refusal are those of the laws of the server |
| ServerObject.Server.ProcessOrderUpdate | src/server.cpp:138-152 | likewise, exactly for the delivery of an order that is DONE, which is erased after its broadcast |
| ServerObject.Server.NothingIsShared | src/message.cpp:59-78 | whenever the server is valid, what a queued message reaches is disjoint from the stored orders and from every other queued message |
| DisplayObject.Display.Handle | src/display_main.cpp:147-158 | one message does to the view what the laws of a display say, or is a protocol error and changes nothing |
| DisplayObject.Display.HandleOrder | src/display_main.cpp:54-63 | a copy of the order is shown under its id |
| DisplayObject.Display.HandleItemUpdate | src/display_main.cpp:66-85 | the first item with the id gets the status, or the message is a protocol error |
| DisplayObject.Display.HandleOrderUpdate | src/display_main.cpp:88-108 | the order gets the status, or disappears if it is delivered |
| DisplayObject.Display.Loop | src/display_main.cpp:139-163 | the loop replays the messages, up to the first protocol error |
| ClientObject.CallServer | src/client.cpp:69-99 | each kind of request calls the server once; the reply names the id under which the new order is stored, reports success, or gives the reason of the refusal |
| ClientObject.UpdaterLoop | src/client.cpp:56-111 | the server's state and the replies after any sequence of frames are those of the abstract conversation |
| ClientObject.ConversationRuns | src/client.cpp:56-111 | every frame up to the first that does not decode, or a QUIT, gets one reply; the conversation runs the calls that these frames ask for, one after the other, the accepted ones being those that the server accepts at their place; and every reply is the one deserved: at once where no call is needed, otherwise OK with the id assigned, or ERROR with the reason |
| ClientObject.EveryFrameIsAnswered | src/client.cpp:56-111 | each reply is the answer to its own frame in the state that the earlier frames lead to, as the laws of a conversation say for its type, its fields and that state; an ERROR leaves that state as it is |
| ClientObject.ConversationEnds | src/client.cpp:56-111 | the conversation is over after a QUIT, at a frame that does not decode, or with the last frame, and not before |
| ClientObject.DecodedRequestsAreCalled | src/client.cpp:69-95 | every decoded request of the three kinds calls its server method with its own fields; the checks for missing fields never fail |
| ClientObject.DisplayLoop | src/client.cpp:35-53 | the display is sent one message for each stored order, by increasing id, with a heartbeat exactly in the turns that time out or find nothing left, as long as sending succeeds; it is not registered afterwards |
| ClientObject.Chat | src/client.cpp:113-151 | a LOGIN of a user is answered "Login successful" and leads to the loop of its mode, one of anybody else "Invalid credentials", and any other frame is not answered |
| ProtocolLaws.GreetExactly | src/client.cpp:113-151 | a connection is let in with a mode if and only if its first frame is the LOGIN text of that mode and a user; other credentials are turned down, and no other frame is answered |
| ProtocolLaws.ReplyExactly | src/client.cpp:69-99 | the reply to a request: OK with the decimal text of the new key, OK for an update, or ERROR with the reason of the refusal |
| ProtocolLaws.CreatedKeyIsTold | src/client.cpp:74-75 | the key that the reply to a new order names is the one under which an order is stored afterwards and none was before |
| ProtocolLaws.ReactExactly | src/client.cpp:56-111 | for every message and state, the answer, the state afterwards and whether the conversation goes on, which it does exactly unless the message is a QUIT |
| ServerProofs.InvOfRun | src/server.cpp:89-152 | after any requests, every key is in 1000 to the next id, the order and its items carry it, and the status is NEW, IN_PROGRESS or DONE: DONE only if all items are, IN_PROGRESS only if some item is not NEW and some not DONE |
| ServerProofs.StrongLifecycleOfRun | src/server.cpp:89-152 | if items arrive NEW, the status of every stored order is at all times a function of its item statuses |
| ServerProofs.StrongLifecycleNeedsNew | src/server.cpp:93-95 | a new order starts in agreement with its items if and only if they all arrive NEW |
| ServerProofs.ItemUpdateOutcome | src/server.cpp:101-136 | an accepted item update moves the first item with the id one step forward, with the automatic order transition, and changes nothing else |
| ServerProofs.LogRebuilds | src/server.cpp:72-152 | replaying the broadcasts of any run from nothing gives the stored orders without a protocol error |
| ServerProofs.ApplyShows | src/display_main.cpp:54-108 | showing the broadcasts of one request turns the orders before it into the orders after it |
| ServerLaws.ItemUpdateAcceptedExactly | src/server.cpp:101-119 | an item update is accepted if and only if the order is stored, an item has the id, and the first such item is NEW with IN_PROGRESS asked or IN_PROGRESS with DONE asked; which refusal each other case gets |
| ServerLaws.OrderUpdateAcceptedExactly | src/server.cpp:138-147 | an order update is accepted if and only if the order is stored and DONE, and DELIVERED is asked; which refusal each other case gets |
| ServerLaws.NewOrderIsStored | src/server.cpp:89-99 | a new order adds one order under a key not in use: NEW, with the items that arrived in their places and the key as their order id; the displays are sent that order |
| ServerLaws.ServedExactly | src/server.cpp:89-152 | state, broadcasts and outcome of any request are the only ones that the laws of the server allow, which are stated of the fields of the stored orders |
| ServerLaws.KeysCount | src/server.cpp:91 | after any requests the next key is 1000 and the number of new orders among them, and all keys lie between |
| ServerLaws.SnapshotExactly | src/server.cpp:80-81 | the snapshot is the one list with one DISP_ORDER for each stored order, by strictly increasing key |
| ServerLaws.ShowExactly | src/display_main.cpp:54-158 | what each message does to a view, or that it is a protocol error, is what the laws of a display say of the fields of the view |
| Delivery.WorkIsConserved | src/server.cpp:101-152 | over every run, accepted item updates plus remaining work equal the work of all orders created |
| Delivery.DeliverableExactly | src/server.cpp:101-152 | which stored orders some requests can bring to delivery: exactly those without an unfinished item behind another of its id, and not NEW without a reachable NEW item |
| Delivery.Deliver | src/server.cpp:101-152 | such an order is delivered by as many accepted item updates as it has work left, and one order update |
| Delivery.OrderWorkIsConserved | src/server.cpp:101-152 | for every stored order and any requests, its accepted item updates plus the work left in it equal the work that it had |
| Delivery.DeliveryTakesAllWork | src/server.cpp:101-152 | every run that delivers an order makes exactly as many accepted updates of its items as it had work |
| Delivery.FreshOrderDelivers | src/updater_main.cpp:43-63 | an order of n NEW items with distinct ids is delivered by 2n accepted updates of its items and one order update, and by no run with another number of item updates |
| Delivery.DuplicateIdIsStuck | src/model.cpp:70-77 | two NEW items of one id make an order that is accepted, and that stays stored whatever requests come |
| History.LogAdvances | src/server.cpp:113-151 | along a legal log, statuses of orders that stay only move forward, and orders that come are new |
| History.NeverReappears | src/server.cpp:138-152 | an order that was shown and has gone is not shown at any later point |
| History.IdsAreFresh | src/server.cpp:91-96 | announced ids are given once, in increasing order, and never overwrite an order that is shown |
| MachineLocks.SynchronizedKept | src/message_queue.cpp:14-34 | every step keeps mutual exclusion, the semaphore count of every queue, the lifetimes of the registered clients, and the absence of undefined behaviour |
| MachineLocks.NoFault | src/message_queue.cpp:28-34 | no possible step calls front() on an empty deque or pushes to a deleted client |
| MachineProgress.NoDeadlock | src/server.cpp:72-99 | a thread that does not wait for its peer can step, or waits over at most two mutexes for one that can |
| MachineProgress.CriticalSectionEnds | src/server.cpp:72-152 | each step of the thread inside the server mutex leads it nearer to its release, and no other thread moves it |
| MachineLog.RecordedKept | src/server.cpp:89-152 | every step keeps the stored orders and the log equal to those of the served requests, refused ones included, run one after the other, also in the middle of a critical section, and the log legal and sendable |
| MachineFlow.FlowingKept | src/message_queue.cpp:14-34 | every step keeps what each client has taken, has queued and is still owed equal to its snapshot and the log since |
| MachineFlow.SnapshotReplays | src/server.cpp:77-82 | replaying the snapshot of the stored orders gives exactly those orders |
| MachineLinks.LinkedKept | src/client.cpp:23-53 | every step keeps the bytes on each connection equal to the frames of the unread messages and a piece of a broken one, and the display equal to the messages read |
| MachineLinks.TransmitKeeps | src/client.cpp:23-32 | sending appends exactly one frame, or fails because the message does not fit or the connection breaks |
| MachineLinks.ReadKeeps | src/display_main.cpp:139-158 | a display can read a frame only if a complete message is unread, and gets that message exactly as it was sent |
| MachineSessions.ErrorChangesNothing | src/client.cpp:69-102 | the step to an ERROR answer leaves orders, id counter, log, registrations and all queues as they were |
| MachineSessions.AnsweredKept | src/client.cpp:56-111 | every step keeps at most one message of each connection unanswered, and the calls that its messages ask for equal, in order, to its requests that were served and the one that is not over |
| MachineReplies.RepliedKept | src/client.cpp:56-111 | every step keeps the messages that an updater was sent, with the one about to be sent, equal to what it is due: the login response and one reply to each message asked, for served requests the OK or ERROR that the abstract server gives in the state reached at their place in the run of all connections; a part of that once the connection has failed |
| MachineRuns.ReachedKeeps | src/server.cpp:72-152 | every reachable state satisfies all the invariants |
| MachineRuns.RunsExtend | src/server.cpp:72-152 | along a run the log, what was sent, read and answered, snapshots and the id counter are never taken back |
| MachineRuns.RequestsAreLinear | src/server.cpp:89-152 | whenever the server mutex is free, orders and log are those of all served requests run one after the other, where those listed as accepted are accepted at their place and alone make up the run; identities and lifecycle hold, and the log replays to the orders |
| MachineRuns.NoChangeBeforeLogin | src/client.cpp:113-151 | before the event that begins the service of a request, refused ones included, there is an event that logs its connection in as a user, with mode UPDATER |
| MachineRuns.AskedIsWhatArrived | src/client.cpp:58-64 | what an updater is held to have asked is what its frames after the login decode to, in order |
| MachineRuns.SessionsAreAnswered | src/client.cpp:56-111 | in every reachable state, an updater whose connection holds has been sent, message by message, the reply that each of its messages deserves, OK exactly where the abstract server accepts the request in the state that the requests served before it lead to; its served requests are those it asked for, in order; while it waits for its peer nothing is owed; other connections are not served |
| MachineAnswers.EveryReplyIsDue | src/client.cpp:56-111 | over all runs, each reply that an updater has been sent answers its own message, and one that needs the server tells what became of it at its place among the requests of all connections |
| MachineEnds.FirstFrameDecides | src/client.cpp:113-151 | in every run, the first frame of a connection lets it in as a user with the mode it asks for, turns it down, or ends it without an answer |
| MachineEnds.OutsidersGetNothing | src/client.cpp:113-136 | a connection that is not logged in is served nothing, shows nothing, and has been sent one message at most: that its credentials are invalid |
| MachineEnds.QuitIsLast | src/client.cpp:66-68 | a QUIT is the last message that is read from an updater |
| MachineEnds.SessionEndsExactly | src/client.cpp:56-111 | a step ends the session of an updater if and only if it sends the answer to a QUIT, reads a frame that does not decode, or finds the connection failed |
| MachineEnds.LoopEndsExactly | src/client.cpp:35-53 | a step takes a display out of its loop if and only if it tries to send a message and that is not sent |
| MachineEnds.TimeoutSendsHeartbeat | src/client.cpp:44-47 | a display whose wait times out is sent a heartbeat next |
| MachineSnapshots.JoinersSeeTheOrders | src/server.cpp:77-82 | a display is due, first, one message for each order stored after some number of requests, by increasing key, and then every broadcast of the requests after those |
| MachineRuns.QueuesAreSafe | src/message_queue.cpp:14-34 | in every reachable state a deque holds what its semaphore counts, one pushed but not posted, one waited for but not popped, and is never read empty |
| MachineRuns.QueuesAreFifo | src/message_queue.cpp:14-34 | what a connection takes from its queue is a prefix of its snapshot and the log from its registration to its removal, and the rest is queued or being pushed |
| MachineRuns.RegisteredAreAlive | src/client.cpp:35-53 | a client is registered exactly while it is in its display loop, and only such clients are pushed to |
| MachineRuns.LocksAreOrdered | src/server.cpp:72-99 | the holder of a queue mutex never waits for the server mutex: it holds it already, or pops from its own queue |
| MachineRuns.NoReachableDeadlock | src/server.cpp:72-99 | in every reachable state a thread that does not wait for its peer can step or waits for one that can, which is not on the network |
| Replication.DisplaysReplicate | src/server.cpp:72-152 | replication down to the bytes: showing the decoded unread bytes, the message in hand, the queue and the pending pushes leads a display without error to exactly the server's orders |
| Replication.QuietDisplaysAgree | src/display_main.cpp:139-163 | with nothing under way, the display shows the stored orders |
| Replication.DisplaysShowPrefixes | src/display_main.cpp:54-108 | every display, also one that has left or lost its connection, shows a part of its snapshot or the orders at one point of the log, and has not stopped with a protocol error |
| Replication.ViewsAdvance | src/server.cpp:113-151 | from one reachable state to a later one, a display moves forward along one log, and statuses only forward |
| Replication.OrdersDoNotReappear | src/server.cpp:138-152 | an order that a display has shown and removed does not come back on that display |
| Capacity.GrowsExactly | src/wire.cpp:108-133 | the DISP_ORDER text of any order is longer than its ORDER_NEW text by one, the digits of the new id in the order and in each item, and the status NEW, less what these replace |
| Capacity.GrowsCanonically | src/updater_main.cpp:43-59 | for an order as the updater sends it, that is exactly 1 + (n + 1)(digits of the id - 1) |
| Capacity.NewOrderFitsExactly | src/io.cpp:13-20 | any decoded order can be shown as a new order if and only if its text leaves room for that growth |
| Capacity.CanonicalFitsExactly | src/io.cpp:13-20 | the same in terms of n and the digits of the id, for an order as the updater sends it |
| Capacity.SmallOrdersFit | src/io.cpp:13-20 | 9997 - 9(n + 1) bytes are enough for any decoded order and any 32-bit id |
| Capacity.NearLimitOrdersDoNotFit | src/io.cpp:13-20 | an order with a description of 9970 bytes is received, and under no id can it be shown |
| Growth.FullestLength | src/wire.cpp:108-133 | an order can still grow by exactly eight bytes for each status that requests can bring to IN_PROGRESS |
| Growth.RunShortens | src/server.cpp:101-152 | whatever the requests, a stored order gets no longer than its longest form |
| Growth.StartAll | src/server.cpp:101-152 | accepted requests, one for each item that can be started, bring any stored order to its longest form |
| Growth.AlwaysFitsExactly | src/server.cpp:77-152 | a new order can be shown at all times, whatever requests come, if and only if its longest form under the assigned id fits |
| Growth.RoomyExactly | src/wire.cpp:108-133 | for any order and id, the longest form fits if and only if the text that brings the order has a certain length |
| Growth.SmallExactly | src/wire.cpp:108-133 | the same for all ids at once |
| Growth.CanonicalRoomyExactly | src/updater_main.cpp:43-63 | for an order as the updater sends it, with distinct item ids, its longest form under id k fits if and only if its text has at most 9997 - (n + 1)(digits of k - 1) - 8(n + 1) bytes |
| Growth.CanonicalSmallExactly | src/updater_main.cpp:43-63 | for such an order, it fits under any id and requests if and only if its text has at most 9997 - 17(n + 1) bytes |
| Growth.OrdersOutgrowFrames | src/server.cpp:101-136 | an order that fits a frame under every id when it is new, and one accepted request after which it does not fit |
| Growth.ShortTextsAreSmall | src/wire.cpp:108-133 | 9997 - 17(n + 1) bytes are enough for any decoded order, any id and any requests |
| Retention.KeptExactly | src/client.cpp:35-53 | while its connection holds, a display that was registered is in its loop if and only if every message that it has tried to pass on fits a frame |
| Retention.NeverPastLongMessages | src/client.cpp:35-53 | a display never gets past a message of its snapshot that does not fit |
| Retention.DisplaysAreKept | src/client.cpp:35-53 | if every accepted order has room under the id that it got, a display whose connection holds is never removed |
| MachineWork.WorkIsAccounted | src/server.cpp:89-152 | in every reachable state, also in the middle of a request, accepted item updates and the work left in the stored orders make up all the work brought in |
| MachineWork.LifecycleInEveryState | src/server.cpp:89-152 | if items arrive NEW, the status of a stored order agrees with its items in every reachable state, except exactly for the order of a request in the middle of its critical section that is due a transition or on its way out |
| MachineWork.IdentityInEveryState | src/server.cpp:89-152 | in every reachable state, also in the middle of a request, every stored order and each of its items carry its key, the key lies between 1000 and the id counter, and the order can be sent |
| Convergence.MutexIsFreed | src/server.cpp:72-152 | a held server mutex is given up after finitely many steps of its holder and of threads popping from their own queues |
| Convergence.DisplaysConverge | src/client.cpp:35-53 | from every reachable state with the server mutex free, a registered display whose connection holds and whose outstanding messages fit comes to show exactly the stored orders, by steps of its own thread and program alone |
| ServerSpec.AcceptedMakeTheRun | src/server.cpp:89-152 | of any requests, those that the server accepts are each accepted at their place when run alone, with the same final state and broadcasts |

## Left out

- MachineProgress.NoDeadlock: needs the id counter below INT_MAX, because signed overflow is undefined in the program; so does every statement about runs, through `Admissible` and `Step`.
- MachineRuns.NoReachableDeadlock: a send counts as a step that can happen, since a connection can always break; how long a write may block on a peer that does not read is not modelled.
- Rio.RioBuffer.Read: requires sizes up to INT_MAX, because the program stores them in `int`.
- IO.ReceiveFrom: after a failed read it says only that the call fails, not how much was consumed.
- ClientObject.DisplayLoop: covers one connection while no other thread runs; with other threads, the display loop is part of `Machine`.
- ServerObject.Server.ProcessNewOrder: requires that nothing else refers to the order, which the callers in `src/client.cpp:74` guarantee by decoding it afresh.
- A registered `Client` is represented in `ServerObject` by the message queue inside it, and in `Machine` by a number; `NO_VALUE_SEMANTICS` and destructors are not part of this model beyond the lifetime of a client.
- Sockets, `accept`, thread creation and the capitalised wrappers of `src/csapp.cpp`: a descriptor is a script of partial, interrupted and failing calls, and a thread is a sequence of steps.
- The end of a display program whose connection fails: at end of file, or inside a frame that broke off, the real program ends with an IOException; in the model it stays as it was.
- Time: the wait in `dequeue` may time out at any moment, and the heartbeat is a message that a display ignores.
- `PasswordDB`: a set of accepted credentials, as a parameter.
- Allocation failure, and errors of the pthread and semaphore calls.
- Terminal output, prompts and the command loop of the updater program, which appears only as the reason why orders arrive with id 1 and items NEW.
- `Util::trim`, `sio_*`, the unit tests and their framework.
- Locale: `isspace` and `isdigit` are those of the C locale.
