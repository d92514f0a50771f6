/**
 The process-wide room store and its socket handlers, as the server runs
 them: one object whose `rooms` dictionary the handlers update in place.
 Each method returns the messages the handler emits instead of sending
 them, and is proved to do exactly what the matching function of module
 `Handlers` describes.
 */
module Server {
  import opened Rooms
  import Handlers

  class RoomServer<D> {
    /** Room code to that room's history and redo stack. */
    var rooms: map<string, Room<D>>
    /** Room code to the sockets that joined it (kept by socket.io). */
    var members: map<string, set<SocketId>>

    function State(): Handlers.State<D>
      reads this
    {
      Handlers.State(rooms, members)
    }

    /** The store starts with no rooms. */
    constructor ()
      ensures rooms == map[] && members == map[]
    {
      rooms := map[];
      members := map[];
    }

    /** Handler of `userJoinRoom` sent by socket `sender` with room code `code`. */
    method UserJoinRoom(sender: SocketId, code: string) returns (out: seq<Message<D>>)
      modifies this
      ensures Handlers.Join(old(State()), sender, code) == Handlers.Emit(State(), out)
      ensures code in rooms && (code in old(rooms) ==> rooms == old(rooms))
    {
      members := members[code := Members(members, code) + {sender}];
      if code !in rooms {
        rooms := rooms[code := Room([], [])];
      }
      out := [Message(ToSender, UserIsJoined(true))];
      out := out + [Message(ToSender, LoadHistory(rooms[code].history))];
    }

    /**
     Handler of `draw` sent by socket `sender`. `threw` is true when the room
     does not exist and the handler throws; then nothing has changed.
     */
    method Draw(sender: SocketId, room: string, drawData: D) returns (threw: bool, out: seq<Message<D>>)
      modifies this
      ensures Handlers.Draw(old(State()), sender, room, drawData)
              == if threw then Handlers.Throw else Handlers.Emit(State(), out)
      ensures threw ==> rooms == old(rooms) && members == old(members)
    {
      if room !in rooms {
        return true, [];
      }
      threw := false;
      rooms := rooms[room := rooms[room].(history := rooms[room].history + [drawData])];
      rooms := rooms[room := rooms[room].(redoStack := [])];
      out := [Message(ToRoomExceptSender(room), DrawRelay(drawData))];
    }

    /** Handler of `undo` sent by socket `sender`. */
    method Undo(sender: SocketId, room: string) returns (out: seq<Message<D>>)
      modifies this
      ensures Handlers.Undo(old(State()), sender, room) == Handlers.Emit(State(), out)
      ensures out == [] <==> rooms == old(rooms)
    {
      out := [];
      if room in rooms && |rooms[room].history| > 0 {
        var lastAction := Last(rooms[room].history);
        rooms := rooms[room := rooms[room].(history := Popped(rooms[room].history))];
        rooms := rooms[room := rooms[room].(redoStack := rooms[room].redoStack + [lastAction])];
        out := [Message(ToRoom(room), LoadHistory(rooms[room].history))];
      }
    }

    /** Handler of `redo` sent by socket `sender`. */
    method Redo(sender: SocketId, room: string) returns (out: seq<Message<D>>)
      modifies this
      ensures Handlers.Redo(old(State()), sender, room) == Handlers.Emit(State(), out)
      ensures out == [] <==> rooms == old(rooms)
    {
      out := [];
      if room in rooms && |rooms[room].redoStack| > 0 {
        var redoAction := Last(rooms[room].redoStack);
        rooms := rooms[room := rooms[room].(redoStack := Popped(rooms[room].redoStack))];
        rooms := rooms[room := rooms[room].(history := rooms[room].history + [redoAction])];
        out := [Message(ToRoom(room), LoadHistory(rooms[room].history))];
      }
    }
  }
}
