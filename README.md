# onlinecounter: the presence coordinator and its browser client, in Dafny

onlinecounter is a small presence broadcaster. Each browser opens a WebSocket.
A single `server` goroutine owns the table of live players. It gives each
newcomer the lowest free id and tells every live player the new number of
players whenever someone joins or leaves. The browser (`physics.js`) shows one
physics body per online player. It adds or removes bodies until their number
matches the count the server last announced.

The project models:

- `wrappers.dfy`: module `Wrappers`, an `Option` type.
- `coordinator_spec.dfy`: module `Coordinator`, the coordinator as pure state
  transitions.
  - `Player`, `Event` (`Join(ch)` / `Disconnect(id)`) and `Notification`
    (`IdAssigned(id)` / `Count(n)`) are datatypes.
  - A mailbox is the sequence of values sent on one channel, so the
    mailboxes form a `map<Channel, seq<Notification>>`.
  - `LeastFreeId` specifies `getNewPlayerId`. `Broadcast` specifies
    `sendToAll` and `sendToAllExcept`.
  - `Step` is one iteration of the event loop and `Run` is the loop over an
    ordered list of events.
  - The lemmas prove the table invariant, the id search, the order in which a
    newcomer is notified, the reach of every broadcast, the counter's
    arithmetic, and the scenarios of joining, leaving and reusing ids.
- `coordinator.dfy`: module `EventLoop`, the same coordinator written
  imperatively.
  - `GetNewPlayerId` is the counting loop.
  - Class `Server` holds the fields `players`, `playerCount` and `mailboxes`.
    Its `SendTo`, `SendToAll` and `SendToAllExcept` loop over the map.
    `ProcessEvent` handles one event through `AddPlayer` or `RemovePlayer`.
  - Each method is proved to perform exactly the transition that
    `Coordinator` defines, so the lemmas there hold of the object.
- `adapter.dfy`: module `Adapter`, what a connection's handler does with each
  value from its channel (src/main.go:165-175).
  - A count is written as `{"count":N}`, using `strconv.Itoa`'s decimal
    text. A reference reader shows that this text gives back N.
  - An id assignment writes nothing and sets the handler's Id.
- `physics.dfy`: module `Physics`, the browser client.
  - Class `Client` holds `count`, the `bodies` stack and the abstract world.
  - It has `Balance` and `OnMessage`.

Modelling choices:

- A channel is an opaque handle (`Channel = nat`). Mailboxes are keyed by
  channel, not by id. A Go channel belongs to one connection, while an id is
  reused after a departure.
- A `Join` carries the channel its handler has just made (src/main.go:153).
  `ProcessEvent` therefore requires that this channel is new.
- The panic in `getNewPlayerId` is the status `Panicked`. It stops `Run` and
  `Serve`. The counter was already incremented at that point
  (src/main.go:77), and the model keeps that increment.
- Events are an ordered input list. Broadcasts are specified as sets: every
  target channel gets one append. The model fixes no visiting order, because
  Go's map iteration order is random.
- The Matter.js world is a ghost `set<Body>`. A body is an object known only
  by its identity.

Quirks of the code:

- A Disconnect for an id that is not live still decrements `playerCount` and
  broadcasts it (src/main.go:101-112). `DisconnectUnknownIdStillCounts` and
  `UnknownDepartureIsBroadcast` state this.
- `playerCount == |players|` holds only while every Disconnect names a live
  id (`RunKeepsInvariant`).
- Departures for unknown ids can drive the count below zero, and the browser
  then receives a negative count. The truthiness test of physics.js:117 lets it
  through to `balance`, which pops every body, the user's included, and then
  fails. `Physics.Client.OnMessage` states this.

## Model

| member | source | states |
|---|---|---|
| `Coordinator.LeastFreeId` | src/main.go:28-34 | defines getNewPlayerId's answer: the least id in [0, 10000000) that is not a key, with every smaller id taken, and None (the panic) exactly when every id of the range is a key; `FreeFromIsLeast` proves it |
| `Coordinator.FreeFromIsLeast` | src/main.go:28-34 | the scan from i returns the least id in [i, 10000000) that is not a key; it finds nothing exactly when every id of that range is a key |
| `Coordinator.NoPanicBelowCapacity` | src/main.go:29-34 | with fewer than 10000000 players the id search always finds an id, so the panic needs the whole id range in use |
| `EventLoop.GetNewPlayerId` | src/main.go:28-35 | the counting loop returns the least free id in [0, 10000000), which is not a key and has every smaller id taken; it fails (the panic) exactly when all ids of the range are keys |
| `Coordinator.BroadcastReachesExactlyPlayers` | src/main.go:43-47 | sendToAll appends the value exactly once to the mailbox of every player in the map and leaves every channel that no player owns unchanged |
| `Coordinator.KeysExceptExactly` | src/main.go:50-56 | sendToAllExcept targets a player exactly when its Id differs from `except`; if no player has that Id, it targets every player |
| `Coordinator.BroadcastExceptReachesOthers` | src/main.go:50-56 | sendToAllExcept appends the value once to every player whose Id is not `except`, leaves the mailbox of a player with that Id unchanged, leaves every channel no player owns unchanged, and creates no channel besides the targets' |
| `Coordinator.Post` | src/main.go:38-40 | defines sendTo on the mailboxes: the channel gets the value appended (a channel never used gets a one-value mailbox) and every other mailbox is unchanged |
| `Coordinator.Broadcast` | src/main.go:43-56 | defines a fan-out set-wise: every channel of the target set gets the value appended once, every other mailbox is unchanged, and no channel outside the targets is created; `BroadcastReachesExactlyPlayers` and `BroadcastExceptReachesOthers` apply it to sendToAll and sendToAllExcept |
| `EventLoop.Server.SendTo` | src/main.go:38-40 | sendTo appends one value to the player's channel and changes nothing else |
| `EventLoop.Server.SendToAll` | src/main.go:43-47 | the loop over the map yields exactly the set-wise broadcast to the players' channels: one append per player, table and counter untouched |
| `EventLoop.Server.SendToAllExcept` | src/main.go:50-56 | the loop skipping `except` yields exactly the broadcast to the players whose Id is not `except`; skipped players' mailboxes are unchanged |
| `EventLoop.Server.constructor` | src/main.go:61-65 | the server starts with an empty table, a count of 0 and no mailboxes |
| `Coordinator.Step` | src/main.go:70-116 | defines one loop iteration: a Join adds 1 to the count and a Disconnect subtracts 1, always; only a Join panics, exactly when no id is free, leaving the table as it was; a Disconnect removes exactly the key it names; the lemmas below state the rest |
| `Coordinator.Run` | src/main.go:67-118 | defines the loop over an ordered list of events, stopping at the first panic, which only happens on a table holding every id of the range; `RunCount` and `RunKeepsInvariant` carry its properties |
| `Coordinator.JoinAssignsLeastFreeId` | src/main.go:74-89 | a Join adds 1 to the count and assigns the least free id, which was not live; the table gains exactly that key, holding the newcomer with Id equal to the key, and every other entry is unchanged; it panics exactly when all ids are taken, with table and mailboxes untouched |
| `Coordinator.JoinNotifiesIdBeforeCount` | src/main.go:86-95 | the newcomer's fresh mailbox holds exactly its id assignment followed by the new count, so it learns its id first and does receive the count |
| `Coordinator.JoinReachesLivePlayers` | src/main.go:89-95 | after a Join every previously live player keeps its entry and gets the new count appended exactly once; channels owned by no live player are unchanged |
| `Coordinator.DisconnectRemovesOnlyId` | src/main.go:98-108 | a Disconnect removes key `id` and no other, keeps every remaining entry, and subtracts 1 from the count |
| `Coordinator.DisconnectReachesLivePlayers` | src/main.go:98-112 | after a Disconnect every remaining player gets the new count appended exactly once; every other channel, the departed player's included, is unchanged |
| `Coordinator.DisconnectUnknownIdStillCounts` | src/main.go:98-112 | a Disconnect for an id that is not live leaves the table unchanged, yet still decrements the count and still sends it to every live player |
| `Coordinator.StepPreservesValid` | src/main.go:74-112 | every event keeps the invariant: each key equals its player's Id and lies in the id range, each live player's channel has a mailbox, and no two live players share a channel |
| `Coordinator.StepKeepsCountInSync` | src/main.go:77-108 | when the count equals the table's size and a Disconnect names a live id, the count still equals the table's size afterwards |
| `Coordinator.RunCount` | src/main.go:67-112 | over any event list the count moves by +1 per Join and -1 per Disconnect, whether or not the departing id was live |
| `Coordinator.RunKeepsInvariant` | src/main.go:67-119 | a run whose Joins bring new channels and whose Disconnects name live ids keeps the table invariant and keeps the count equal to the number of live players, so it is never negative |
| `EventLoop.Server.ProcessEvent` | src/main.go:70-116 | one loop iteration on the object performs exactly the transition `Step`, dispatching on the event's kind, so it keeps the table invariant |
| `EventLoop.Server.AddPlayer` | src/main.go:74-95 | the Join branch, in the source's statement order (count, id, id notification, insert, broadcast), performs exactly `Step` on a Join, panic included, and keeps the invariant |
| `EventLoop.Server.RemovePlayer` | src/main.go:98-112 | the Disconnect branch (decrement, delete, broadcast) performs exactly `Step` on a Disconnect and keeps the invariant |
| `EventLoop.Server.Serve` | src/main.go:67-118 | the loop over an event list performs exactly `Run`: it stops at a panic and keeps the invariant |
| `Coordinator.ArrivalsFromEmpty` | src/main.go:74-95 | n arrivals on distinct channels from an empty server give the i-th arrival id i; its mailbox holds its id followed by every count from i + 1 up to n |
| `Coordinator.ThreeArrivals` | src/main.go:74-95 | three arrivals get ids 0, 1 and 2; the first hears its id and then the counts 1, 2 and 3, the second hears 2 and 3, and the third hears 3 |
| `Coordinator.TwoArrivals` | src/main.go:74-95 | two arrivals get ids 0 and 1; the first hears its id then the counts 1 and 2, the second its id then 2 |
| `Coordinator.TwoArrivalsFirstDeparts` | src/main.go:98-112 | after arrivals with ids 0 and 1 and the departure of id 0, only player 1 is left; it has heard the counts 2 and then 1, and the departed player's mailbox has nothing more |
| `Coordinator.DepartureFreesIdForReuse` | src/main.go:74-112 | after that departure, a third arrival is given the freed id 0, and both live players hear the count 2 |
| `Coordinator.FreedIdIsReused` | src/main.go:98-108 | after a live player departs, the next arrival gets an id no greater than the departed one, and exactly that id when every lower id is still live |
| `Coordinator.UnknownDepartureIsBroadcast` | src/main.go:101-112 | a Disconnect for an id never assigned still drops the count from 1 to 0 and sends 0 to the live player |
| `Adapter.Itoa` | src/main.go:169 | strconv.Itoa's text begins with a minus sign exactly for negative numbers, followed by the decimal digits of the magnitude, which have no leading zero |
| `Adapter.NatToDecimal` | src/main.go:169 | the decimal text of a natural number is non-empty, all digits, and has no leading zero unless the number is 0 |
| `Adapter.ItoaRoundTrip` | src/main.go:169 | reading strconv.Itoa's text back as a decimal integer gives the original number |
| `Adapter.ItoaInjective` | src/main.go:169 | different counts are written as different text |
| `Adapter.CountMessage` | src/main.go:168-170 | the wire text `{"count":` + decimal(n) + `}` is read back as the count n by an independent reader |
| `Adapter.Translate` | src/main.go:166-175 | a count keeps the handler's Id and writes a message that reads back as that count; an id assignment writes nothing and sets the Id to the assigned one |
| `Adapter.Connection.constructor` | src/main.go:149-154 | a handler starts with Id 0, the placeholder until the coordinator assigns one, and has written nothing |
| `Adapter.Connection.Receive` | src/main.go:165-175 | a count appends its `{"count":N}` message to the socket's output and keeps the Id; an id assignment writes nothing and sets the Id |
| `Adapter.Connection.ReceiveAll` | src/main.go:161-175 | draining a channel in order leaves the Id set by the last assignment and writes one count message per count, in order |
| `Adapter.NewcomerLearnsIdThenCount` | src/main.go:165-175 | a newcomer's handler, after reading what its Join sent, holds the assigned id and has written exactly one message, which reads back as the new count |
| `Physics.Client.constructor` | physics.js:81-88 | the client starts with count 1 and the user's body as the only body, so the stack's length equals the count |
| `Physics.Client.Balance` | physics.js:100-111 | when growing, it appends exactly newCount - count fresh bodies and adds them to the world, keeping the old stack as a prefix; when shrinking, it pops exactly count - newCount bodies from the end and removes them from the world; it reaches count == newCount, keeps the stack's length equal to the count, leaves everything unchanged when newCount is the current count (so it is idempotent), and never removes the user's body while newCount >= 1; popping an empty stack stops with failure, so a negative newCount from a consistent state empties the stack and the world and fails |
| `Physics.Client.OnMessage` | physics.js:114-120 | balance runs only when the message's count is present and non-zero; a missing or zero count leaves count, bodies and world unchanged; from a consistent state a truthy count keeps the stack's length equal to the count, succeeds exactly when the count is not negative, and on a negative count ends with no bodies at all, the user's included, and an empty world; for a positive count it performs `balance`: growing keeps the old stack as a prefix and adds only fresh bodies to the world, shrinking keeps exactly the first `count` bodies and removes the others from the world, and the user's body stays first |

## Left out

- WebSocket and HTTP I/O are not modelled: `ws.Write`, the JSON reader
  goroutine, `http.ListenAndServe`, `new WebSocket` and `JSON.parse`. The
  handler's output is a sequence of strings. The client receives the parsed
  `count` field as an `Option<int>`.
- Goroutines, `select`, blocking channel sends and the capacities 10 and 100
  are not modelled. Mailboxes are append-only sequences, so a full mailbox
  never blocks the coordinator. How a handler's `select` interleaves its
  channel with socket errors is not modelled either.
- The socket-error branch of `handlerGen` (src/main.go:179-188) is left out.
  It only decides when a Disconnect is sent.
- `fmt` logging and `time.Now()` are left out.
- The "unidentified type" default branches (src/main.go:114-115, 176-177)
  cannot occur, because events and notifications are closed datatypes.
- Matter.js engine setup, rendering, mouse constraints, random polygons and
  all coordinates and sizes (physics.js:1-76, 85-94) are left out. A body is
  an identity, and the world is the set of bodies this code has added and not
  removed.
- Go's `int` is unbounded here. A count or id overflowing 64 bits is not
  modelled, because ids are capped at 10000000.
- EventLoop.Server.SendToAll: requires that no two players share a channel.
  With a shared channel, Go would send twice on it. Every channel of a live
  player is distinct under the table invariant.
- EventLoop.Server.SendToAllExcept: requires distinct channels, for the same
  reason.
- Physics.Client.Balance: when the stack runs empty while shrinking,
  `Composite.remove` receives `undefined` and throws before `count` is
  decremented. The method models this as a `false` return with the state at
  that point. The JavaScript exception itself is not modelled.
