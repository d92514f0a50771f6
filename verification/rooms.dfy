/**
 The state of one drawing room and the messages the server sends about it.

 A room keeps two stacks of opaque drawing payloads (`D`): `history`, the
 strokes currently on the board in the order they were drawn, and
 `redoStack`, the strokes taken off by undo, the most recently undone one on
 top (last). The server never looks inside a payload.
 */
module Rooms {

  /** The identifier socket.io gives a connection (`socket.id`). */
  type SocketId = string

  datatype Room<D> = Room(history: seq<D>, redoStack: seq<D>)

  /** The room a join creates for a code nobody has used yet. */
  function EmptyRoom<D>(): (r: Room<D>)
    ensures |r.history| == 0 && |r.redoStack| == 0
  {
    Room([], [])
  }

  /** Top of a stack kept in an array: what JavaScript's `pop()` returns. */
  function Last<D>(s: seq<D>): D
    requires |s| > 0
  {
    s[|s| - 1]
  }

  /** What a stack holds after `pop()`. */
  function Popped<D>(s: seq<D>): seq<D>
    requires |s| > 0
  {
    s[..|s| - 1]
  }

  /** The room after a draw of `d`: pushed on history, redo stack emptied. */
  function Drawn<D>(r: Room<D>, d: D): Room<D>
  {
    Room(r.history + [d], [])
  }

  /** The room after an undo: the top of history moves to the top of the redo stack. */
  function Undone<D>(r: Room<D>): Room<D>
    requires |r.history| > 0
  {
    Room(Popped(r.history), r.redoStack + [Last(r.history)])
  }

  /** The room after a redo: the top of the redo stack moves back to the top of history. */
  function Redone<D>(r: Room<D>): Room<D>
    requires |r.redoStack| > 0
  {
    Room(r.history + [Last(r.redoStack)], Popped(r.redoStack))
  }

  function Reverse<D>(s: seq<D>): (r: seq<D>)
    ensures |r| == |s|
  {
    if |s| == 0 then [] else [Last(s)] + Reverse(Popped(s))
  }

  /**
   The room's strokes in the order they were drawn, the undone ones that redo
   can still bring back included: history followed by the redo stack read
   from its top down.
   */
  function Timeline<D>(r: Room<D>): seq<D>
  {
    r.history + Reverse(r.redoStack)
  }

  /** Undo followed by redo gives back the room exactly. */
  lemma RedoAfterUndo<D>(r: Room<D>)
    requires |r.history| > 0
    ensures |Undone(r).redoStack| > 0 && Redone(Undone(r)) == r
  {
  }

  /** Redo followed by undo gives back the room exactly. */
  lemma UndoAfterRedo<D>(r: Room<D>)
    requires |r.redoStack| > 0
    ensures |Redone(r).history| > 0 && Undone(Redone(r)) == r
  {
  }

  /**
   Undo only moves a stroke between the two stacks: the timeline, and so the
   number of strokes the room holds, stays the same.
   */
  lemma UndoKeepsTimeline<D>(r: Room<D>)
    requires |r.history| > 0
    ensures Timeline(Undone(r)) == Timeline(r)
    ensures |Undone(r).history| + |Undone(r).redoStack| == |r.history| + |r.redoStack|
  {
  }

  /** Redo, likewise, keeps the timeline and the number of strokes. */
  lemma RedoKeepsTimeline<D>(r: Room<D>)
    requires |r.redoStack| > 0
    ensures Timeline(Redone(r)) == Timeline(r)
    ensures |Redone(r).history| + |Redone(r).redoStack| == |r.history| + |r.redoStack|
  {
  }

  /** A draw makes the new stroke the last one of the timeline and forgets the undone ones. */
  lemma DrawnTimeline<D>(r: Room<D>, d: D)
    ensures Timeline(Drawn(r, d)) == r.history + [d]
  {
  }

  /** Who a message is addressed to. */
  datatype Audience =
    | ToSender                         // socket.emit(...)
    | ToRoomExceptSender(room: string) // socket.to(room).emit(...)
    | ToRoom(room: string)             // io.to(room).emit(...)

  /** The events the server emits, with their payloads. */
  datatype Event<D> =
    | UserIsJoined(success: bool)
    | LoadHistory(history: seq<D>)
    | DrawRelay(drawData: D)

  datatype Message<D> = Message(to: Audience, event: Event<D>)

  /** The sockets that joined `room` (socket.io's room membership). */
  function Members(members: map<string, set<SocketId>>, room: string): set<SocketId>
  {
    if room in members then members[room] else {}
  }

  /**
   The sockets a message reaches when `sender` is the socket whose event the
   server is handling and `members` is the room membership at that moment.
   */
  function Recipients(to: Audience, sender: SocketId, members: map<string, set<SocketId>>): set<SocketId>
  {
    match to
    case ToSender => {sender}
    case ToRoomExceptSender(room) => Members(members, room) - {sender}
    case ToRoom(room) => Members(members, room)
  }
}
