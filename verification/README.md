# dooddly-server room store, modelled in Dafny

dooddly-server is a collaborative drawing relay built on socket.io. Clients
join a room by its code, send drawing strokes, and undo or redo them. The
server keeps one process-wide dictionary `rooms` from room code to a record
`{history, redoStack}`. Four socket handlers change it:

- `userJoinRoom` gets or creates the room. It acknowledges the joiner and
  sends the joiner the room's current history.
- `draw` pushes the stroke on `history`, empties `redoStack`, and relays the
  stroke to the room without the sender.
- `undo` moves the last stroke of `history` onto `redoStack` and sends the
  new history to the whole room.
- `redo` does the reverse move.

The model is split into these modules:

- `Rooms` (rooms.dfy) holds one room's two stacks as a value and defines
  what draw, undo and redo do to them. It defines the room's timeline:
  history followed by the redo stack read from its top down. It also defines
  the outgoing messages and their audiences: sender only, room without the
  sender, whole room.
- `Handlers` (handlers.dfy) defines each handler as a function. The function
  maps the server state (rooms and socket.io room membership) to the new
  state and the messages emitted. A `draw` to a code with no room throws a
  TypeError, which the model represents as `Throw`.
- `Server` (server.dfy) holds `RoomServer`, a class whose `rooms` map the
  methods update in place, step by step as the handlers do. Each method
  returns the messages it emits. Each is proved equal to its `Handlers`
  function.
- `Trace` (trace.dfy) runs a whole sequence of incoming events. Events are
  handled one at a time, in arrival order. The run stops at the first event
  whose handler throws, because the exception is not caught. The lemmas here
  are about whole runs: rooms are only created by joins, draws from any
  sockets append in arrival order, undo and redo keep every timeline, and n undos followed by n
  redos restore the state.
- `ObjectKeys` (object_keys.dfy) covers the finding below.

Some behaviour a client of such a server might expect is not in the code,
and the model follows the code:

- There is no `clear` event, no standalone `loadHistory` request and no
  `userCreateRoom` event.
- `loadHistory` carries only the history, not the redo stack.
- The room code of a join is not validated. Any string becomes a key of
  `rooms`, except the names inherited from `Object.prototype` (see
  Findings).
- An undo or redo that does nothing sends nothing.
- A draw to an unknown room is not dropped silently; it throws.

## Model

| member | source | states |
|---|---|---|
| `Rooms.EmptyRoom` | server.js:30 | a room created by a join starts with an empty history and an empty redo stack |
| `Rooms.RedoAfterUndo` | server.js:51-65 | on any room with a non-empty history, undo then redo gives back exactly the same room |
| `Rooms.UndoAfterRedo` | server.js:51-65 | on any room with a non-empty redo stack, redo then undo gives back exactly the same room |
| `Rooms.UndoKeepsTimeline` | server.js:52-54 | undo only moves the last stroke between the stacks: the timeline and the total stroke count are unchanged |
| `Rooms.RedoKeepsTimeline` | server.js:60-62 | redo likewise keeps the timeline and the total stroke count |
| `Rooms.DrawnTimeline` | server.js:46-47 | after a draw the timeline is the old history plus the new stroke; the undone strokes are forgotten |
| `Handlers.Join` | server.js:26-35 | join never throws; afterwards the room exists; an existing room is left as it was, and an absent code gets an empty room; no other room changes; the joiner is added to the room's members; exactly two messages go out, both to the joiner only: `userIsJoined {success: true}` and then `loadHistory` with the room's current history |
| `Handlers.Draw` | server.js:45-49 | draw throws exactly when the room does not exist; otherwise history gains the stroke at its end, the redo stack becomes empty, no other room or membership changes, and the only message is the stroke, addressed to the room without the sender, so the sender never receives it |
| `Handlers.Undo` | server.js:51-57 | with a missing room or an empty history, nothing changes and nothing is sent; otherwise the old history is the new one plus its last stroke x, the redo stack gains x on top, no other room changes, and the new history is sent to the whole room, which reaches the sender if it joined the room |
| `Handlers.Redo` | server.js:59-65 | with a missing room or an empty redo stack, nothing changes and nothing is sent; otherwise the old redo stack is the new one plus its top y, history gains y at its end, no other room changes, and the new history is sent to the whole room |
| `Handlers.JoinIdempotent` | server.js:29-30 | a second join with the same code by the same socket leaves the state and the reply exactly as after the first |
| `Handlers.RedoAfterUndoRestores` | server.js:51-65 | an undo followed immediately by a redo on the same room, by any sockets, gives back the whole server state |
| `Handlers.UndoAfterRedoRestores` | server.js:51-65 | a redo followed immediately by an undo on the same room gives back the whole server state |
| `Handlers.DrawAfterJoinCompletes` | server.js:26-49 | once a join has named a code, a draw to that code by any socket does not throw |
| `Server.RoomServer.constructor` | server.js:21 | the store starts with no rooms and no memberships |
| `Server.RoomServer.UserJoinRoom` | server.js:26-35 | the in-place join leaves exactly the state and messages of `Handlers.Join`; the room exists afterwards, and an existing room's store is untouched |
| `Server.RoomServer.Draw` | server.js:45-49 | the in-place draw throws, or completes with the state and messages of `Handlers.Draw`; a throw changes nothing |
| `Server.RoomServer.Undo` | server.js:51-57 | the in-place undo leaves exactly the state and messages of `Handlers.Undo`; it sends something exactly when it changes the rooms |
| `Server.RoomServer.Redo` | server.js:59-65 | the in-place redo leaves exactly the state and messages of `Handlers.Redo`; it sends something exactly when it changes the rooms |
| `Trace.RunAppend` | server.js:23-70 | events are handled one after the other: running two sequences in turn equals running their concatenation |
| `Trace.RoomsOnlyFromJoins` | server.js:21-65 | over any sequence of events, no room is ever removed and only joins create rooms; if no handler threw, the final rooms are exactly the initial ones plus every code a join named |
| `Trace.DrawsAppendInOrder` | server.js:45-49 | any number of draws in an existing room, sent by any sockets in any interleaving, never throw; the history becomes the old one followed by the payloads in arrival order; the redo stack is empty after at least one draw; no other room or membership changes; each payload is relayed in order to the room without its sender |
| `Trace.NewRoomHistoryIsDraws` | server.js:26-49 | a room created by a join and then drawn in, by the joiner or by any other sockets, holds exactly the payloads drawn, in arrival order |
| `Trace.UndoRedoKeepTimelines` | server.js:51-65 | any sequence of undos and redos never throws, never creates or removes a room, keeps the membership, and keeps every room's timeline and stroke count |
| `Trace.UndosThenRedosRestore` | server.js:51-65 | n undos followed by n redos on one room restore the whole server state, whenever the history holds at least n strokes |
| `Trace.DrawDrawUndoRedo` | server.js:45-65 | join "ABC", draw op1, draw op2, undo: the room is history [op1] and redo stack [op2], and [op1] goes to the whole room; a redo then gives history [op1, op2] and an empty redo stack |
| `Trace.JoinExistingRoom` | server.js:26-35 | joining "ABC" while it holds [op1] leaves the rooms unchanged and sends the joiner the acknowledgement and then [op1] |
| `ObjectKeys.LookupAsWritten` | server.js:21-30 | on the plain object literal, `rooms[code]` is a stored room exactly when one was stored, and then it is that room; it is undefined exactly when nothing was stored and the code is not an inherited member's name |
| `ObjectKeys.JoinAsWritten` | server.js:26-35 | as written, a join with an inherited member's name stores nothing and sends an undefined history; a join with any other code stores the room and sends its history |
| `ObjectKeys.ConstructorCodeAsWritten` | server.js:21-55 | as written, on a fresh server a join to "constructor" stores no room and sends an undefined history, and a later draw, undo or redo to "constructor" throws |
| `ObjectKeys.AsWrittenAgreesElsewhere` | server.js:26-57 | for every code that is not an inherited member's name, the code as written behaves like `Handlers`: join stores the same rooms and sends the same history, draw throws exactly when `Handlers.Draw` throws, and undo and redo never throw |

## Left out

- The Express app, the CORS settings and the socket.io server setup (server.js:1-20) are transport configuration.
- `server.listen` and the `console.log` calls (server.js:24, 68, 72) are process start-up and logging.
- The `disconnect` handler (server.js:67-69) only logs.
- socket.io removes a disconnected socket from its rooms; that happens inside the library, and the membership map never shrinks.
- The commented-out `joinRoom` handler (server.js:37-43) is dead code.
- The unused fields `name`, `userId`, `host` and `presenter` of the join payload (server.js:27) are not modelled.
- Delivering messages is left to socket.io. Handlers return each message as an audience and a payload. `Rooms.Recipients` says which sockets an audience covers. It leaves out the private room socket.io gives every socket under its own id.
- `Handlers`, `Server` and `Trace` treat `rooms` as a dictionary without a prototype. For the twelve names a plain object inherits from `Object.prototype`, the code behaves otherwise, so their statements that a join creates the room do not hold for those names. `ObjectKeys` models the lookup as written, and `ObjectKeys.AsWrittenAgreesElsewhere` proves the difference is confined to those names (see Findings).
- Malformed payloads are not modelled. A missing payload object makes the destructuring in the `userJoinRoom` and `draw` handlers throw. Room codes that are not strings are also left out: JavaScript turns them into string keys of `rooms` (a missing code becomes `"undefined"`), while `socket.join` receives the raw value. The model takes every room code as a string.
- What happens after a handler throws is not modelled: the exception is not caught, and Node.js then takes down the process. A `Trace` run simply stops at the first throw.
- Room records are modelled as values replaced in the map, not objects mutated in place. Nothing in the source shares a room record outside `rooms`, so no aliasing is lost.
- The model does not capture the array identity that `loadHistory` sends. socket.io encodes the array when the message is emitted, so a message carries the history as it stood at that moment.

## Findings

| source | as written | input that shows it | evidently intended | confidence | as-written member | corrected member |
|---|---|---|---|---|---|---|
| server.js:21 | `rooms` is the object literal `{}`, so for a code naming a member inherited from `Object.prototype` ("constructor", "toString", "__proto__", ...) `rooms[code]` is that member and `!rooms[code]` is false | `userJoinRoom {roomCode: "constructor"}` on a fresh server, then `draw {room: "constructor", drawData}` or `undo("constructor")` | every code names its own room: the join stores an empty room and sends `[]`, and later draws and undos to it work | not executed; high | `ObjectKeys.ConstructorCodeAsWritten` | `Handlers.DrawAfterJoinCompletes` |

In the as-written case, the join stores no room and sends `loadHistory` with an undefined payload. A later draw, undo or redo to that code throws a TypeError. The rest of the model follows the intended behaviour: `Handlers`, `Server` and `Trace` treat `rooms` as a dictionary without a prototype. `ObjectKeys.AsWrittenAgreesElsewhere` proves that this choice changes nothing for any other code.
