/**
 The four socket handlers of the server as functions from the server state
 before an event to the state after it and the messages sent while handling
 it. The class `Server.RoomServer` runs the same steps in place; these
 functions are what its methods are proved against and what the trace
 lemmas of module `Trace` reason about.
 */
module Handlers {
  import opened Rooms

  /**
   The whole server state: the `rooms` dictionary, keyed by room code, and
   socket.io's room membership, which `socket.join` adds to.
   */
  datatype State<D> = State(rooms: map<string, Room<D>>, members: map<string, set<SocketId>>)

  /**
   What handling one event does: either it completes, with the new state and
   the messages emitted, or it throws a TypeError before changing anything.
   */
  datatype Effect<D> = Emit(state: State<D>, out: seq<Message<D>>) | Throw

  /** Every room other than `code` is present in both maps or in neither, and the same in both. */
  ghost predicate OthersUnchanged<D>(before: map<string, Room<D>>, after: map<string, Room<D>>, code: string)
  {
    before - {code} == after - {code}
  }

  /**
   userJoinRoom: the socket joins the room's group, the room is created empty
   if the code is new, and the joiner alone is sent an acknowledgement and
   the room's current history. The code is not validated.
   */
  function Join<D>(s: State<D>, sender: SocketId, code: string): (e: Effect<D>)
    ensures e.Emit? && code in e.state.rooms
    ensures code in s.rooms ==> e.state.rooms == s.rooms
    ensures code !in s.rooms ==> e.state.rooms[code] == EmptyRoom()
    ensures OthersUnchanged(s.rooms, e.state.rooms, code)
    ensures Members(e.state.members, code) == Members(s.members, code) + {sender}
    ensures e.state.members - {code} == s.members - {code}
    ensures e.out == [Message(ToSender, UserIsJoined(true)), Message(ToSender, LoadHistory(e.state.rooms[code].history))]
    ensures Recipients(e.out[0].to, sender, e.state.members) == Recipients(e.out[1].to, sender, e.state.members) == {sender}
  {
    var members := s.members[code := Members(s.members, code) + {sender}];
    var rooms := if code in s.rooms then s.rooms else s.rooms[code := EmptyRoom()];
    Emit(State(rooms, members),
         [Message(ToSender, UserIsJoined(true)), Message(ToSender, LoadHistory(rooms[code].history))])
  }

  /**
   draw: the payload is pushed on the room's history, the redo stack is
   emptied and the payload is relayed to the room without its sender. For a
   code that has no room the handler dereferences `undefined` and throws.
   */
  function Draw<D>(s: State<D>, sender: SocketId, room: string, drawData: D): (e: Effect<D>)
    ensures e.Throw? <==> room !in s.rooms
    ensures e.Emit? ==>
      && room in e.state.rooms
      && e.state.rooms[room].history == s.rooms[room].history + [drawData]
      && e.state.rooms[room].redoStack == []
      && OthersUnchanged(s.rooms, e.state.rooms, room)
      && e.state.members == s.members
      && e.out == [Message(ToRoomExceptSender(room), DrawRelay(drawData))]
      && sender !in Recipients(e.out[0].to, sender, e.state.members)
  {
    if room !in s.rooms then Throw
    else
      Emit(State(s.rooms[room := Drawn(s.rooms[room], drawData)], s.members),
           [Message(ToRoomExceptSender(room), DrawRelay(drawData))])
  }

  /**
   undo: when the room exists and its history is not empty, the last stroke
   moves onto the redo stack and the new history is sent to the whole room,
   sender included. Otherwise nothing changes and nothing is sent.
   */
  function Undo<D>(s: State<D>, sender: SocketId, room: string): (e: Effect<D>)
    ensures e.Emit? && e.state.members == s.members
    ensures (room !in s.rooms || |s.rooms[room].history| == 0) ==> e.state == s && e.out == []
    ensures room in s.rooms && |s.rooms[room].history| > 0 ==>
      && room in e.state.rooms
      && var before, after := s.rooms[room], e.state.rooms[room];
      && before.history == after.history + [Last(before.history)]
      && after.redoStack == before.redoStack + [Last(before.history)]
      && OthersUnchanged(s.rooms, e.state.rooms, room)
      && e.out == [Message(ToRoom(room), LoadHistory(after.history))]
      && (sender in Members(s.members, room) ==> sender in Recipients(e.out[0].to, sender, e.state.members))
  {
    if room in s.rooms && |s.rooms[room].history| > 0 then
      var after := Undone(s.rooms[room]);
      Emit(State(s.rooms[room := after], s.members), [Message(ToRoom(room), LoadHistory(after.history))])
    else
      Emit(s, [])
  }

  /**
   redo: when the room exists and its redo stack is not empty, the top of the
   redo stack moves back onto history and the new history is sent to the
   whole room, sender included. Otherwise nothing changes and nothing is sent.
   */
  function Redo<D>(s: State<D>, sender: SocketId, room: string): (e: Effect<D>)
    ensures e.Emit? && e.state.members == s.members
    ensures (room !in s.rooms || |s.rooms[room].redoStack| == 0) ==> e.state == s && e.out == []
    ensures room in s.rooms && |s.rooms[room].redoStack| > 0 ==>
      && room in e.state.rooms
      && var before, after := s.rooms[room], e.state.rooms[room];
      && before.redoStack == after.redoStack + [Last(before.redoStack)]
      && after.history == before.history + [Last(before.redoStack)]
      && OthersUnchanged(s.rooms, e.state.rooms, room)
      && e.out == [Message(ToRoom(room), LoadHistory(after.history))]
      && (sender in Members(s.members, room) ==> sender in Recipients(e.out[0].to, sender, e.state.members))
  {
    if room in s.rooms && |s.rooms[room].redoStack| > 0 then
      var after := Redone(s.rooms[room]);
      Emit(State(s.rooms[room := after], s.members), [Message(ToRoom(room), LoadHistory(after.history))])
    else
      Emit(s, [])
  }

  /** Joining twice in a row with the same code changes nothing the first join did not. */
  lemma JoinIdempotent<D>(s: State<D>, sender: SocketId, code: string)
    ensures Join(Join(s, sender, code).state, sender, code) == Join(s, sender, code)
  {
  }

  /** An undo and then a redo on the same room give back the state exactly. */
  lemma RedoAfterUndoRestores<D>(s: State<D>, p: SocketId, q: SocketId, room: string)
    requires room in s.rooms && |s.rooms[room].history| > 0
    ensures Redo(Undo(s, p, room).state, q, room).state == s
  {
  }

  /** A redo and then an undo on the same room give back the state exactly. */
  lemma UndoAfterRedoRestores<D>(s: State<D>, p: SocketId, q: SocketId, room: string)
    requires room in s.rooms && |s.rooms[room].redoStack| > 0
    ensures Undo(Redo(s, p, room).state, q, room).state == s
  {
  }

  /** Once a join has made the room, a draw to it by anyone does not throw. */
  lemma DrawAfterJoinCompletes<D>(s: State<D>, p: SocketId, q: SocketId, code: string, drawData: D)
    ensures Draw(Join(s, p, code).state, q, code, drawData).Emit?
  {
  }
}
