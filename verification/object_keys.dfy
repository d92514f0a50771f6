/**
 The room store as written is a plain JavaScript object literal, not a
 dictionary without a prototype. Reading `rooms[code]` for a code that names
 a member every object inherits from `Object.prototype` ("constructor",
 "toString", "__proto__", ...) yields that member instead of `undefined`.
 This module models the lookups of the handlers as written, shows what
 goes wrong for such a code, and shows that for every other code they agree
 with module `Handlers`, which treats `rooms` as the dictionary the
 handlers evidently mean it to be.
 */
module ObjectKeys {
  import opened Rooms
  import Handlers

  datatype Option<T> = None | Some(value: T)

  /** The names of the properties a plain object inherits from Object.prototype in Node.js. */
  const InheritedKeys: set<string> := {
    "constructor", "hasOwnProperty", "isPrototypeOf", "propertyIsEnumerable",
    "toLocaleString", "toString", "valueOf", "__proto__",
    "__defineGetter__", "__defineSetter__", "__lookupGetter__", "__lookupSetter__"
  }

  /** What `rooms[code]` evaluates to: a room the server stored, an inherited member, or undefined. */
  datatype Lookup<D> = OwnRoom(room: Room<D>) | InheritedMember | Undefined

  function LookupAsWritten<D>(rooms: map<string, Room<D>>, code: string): (l: Lookup<D>)
    ensures l.OwnRoom? <==> code in rooms
    ensures l.OwnRoom? ==> l.room == rooms[code]
    ensures l.Undefined? <==> code !in rooms && code !in InheritedKeys
  {
    if code in rooms then OwnRoom(rooms[code])
    else if code in InheritedKeys then InheritedMember
    else Undefined
  }

  /**
   userJoinRoom as written: a room is stored only when `rooms[code]` is
   falsy, that is undefined; the history sent back is `rooms[code].history`,
   which is undefined (None) for an inherited member, which has no such
   property.
   */
  function JoinAsWritten<D>(rooms: map<string, Room<D>>, code: string): (r: (map<string, Room<D>>, Option<seq<D>>))
    ensures code in InheritedKeys && code !in rooms ==> r.0 == rooms && r.1 == None
    ensures code !in InheritedKeys ==> code in r.0 && r.1 == Some(r.0[code].history)
  {
    var after := if LookupAsWritten(rooms, code).Undefined? then rooms[code := EmptyRoom()] else rooms;
    match LookupAsWritten(after, code)
    case OwnRoom(room) => (after, Some(room.history))
    case InheritedMember => (after, None)
    case Undefined => (after, None)
  }

  /**
   Whether draw as written throws: `rooms[room].history.push(...)` needs a
   stored room; undefined has no properties, and an inherited member has no
   `history`, so `.push` is read from undefined.
   */
  predicate DrawThrowsAsWritten<D>(rooms: map<string, Room<D>>, room: string)
  {
    !LookupAsWritten(rooms, room).OwnRoom?
  }

  /**
   Whether undo or redo as written throws: `rooms[room]?.history` (and
   `rooms[room]?.redoStack`) stops at undefined, but for an inherited member
   it yields undefined and the following `.length` throws.
   */
  predicate UndoOrRedoThrowsAsWritten<D>(rooms: map<string, Room<D>>, room: string)
  {
    LookupAsWritten(rooms, room).InheritedMember?
  }

  /**
   A user joining room "constructor" on a fresh server: no room is stored,
   the history sent back is undefined, and a draw, an undo or a redo to that
   code then throws.
   */
  lemma ConstructorCodeAsWritten<D>()
    ensures var (rooms, sent) := JoinAsWritten<D>(map[], "constructor");
      && "constructor" !in rooms
      && sent == None
      && DrawThrowsAsWritten(rooms, "constructor")
      && UndoOrRedoThrowsAsWritten(rooms, "constructor")
  {
  }

  /**
   For every code that is not an inherited member's name, the handlers as
   written do what module `Handlers` says: join stores the same rooms and
   sends the same history, draw throws exactly when `Handlers.Draw` does,
   and undo and redo never throw.
   */
  lemma AsWrittenAgreesElsewhere<D>(s: Handlers.State<D>, sender: SocketId, code: string)
    requires code !in InheritedKeys
    ensures var e := Handlers.Join(s, sender, code);
      && JoinAsWritten(s.rooms, code) == (e.state.rooms, Some(e.state.rooms[code].history))
    ensures forall d: D :: DrawThrowsAsWritten(s.rooms, code) <==> Handlers.Draw(s, sender, code, d).Throw?
    ensures !UndoOrRedoThrowsAsWritten(s.rooms, code)
  {
  }
}
