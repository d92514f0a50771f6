/**
 The server over a whole sequence of incoming events. Events are handled one
 at a time, each to completion, in arrival order; the first event whose
 handler throws stops the run (the exception is not caught anywhere in the
 server), and what was sent before it stays sent.
 */
module Trace {
  import opened Rooms
  import opened Handlers

  /** The events a client sends, with their payloads. */
  datatype Request<D> =
    | OnUserJoinRoom(roomCode: string)
    | OnDraw(room: string, drawData: D)
    | OnUndo(room: string)
    | OnRedo(room: string)

  /** One incoming event and the socket it came from. */
  datatype Arrival<D> = Arrival(sender: SocketId, request: Request<D>)

  /** The handler registered for the event's name. */
  function Handle<D>(s: State<D>, a: Arrival<D>): Effect<D>
  {
    match a.request
    case OnUserJoinRoom(code) => Join(s, a.sender, code)
    case OnDraw(room, drawData) => Draw(s, a.sender, room, drawData)
    case OnUndo(room) => Undo(s, a.sender, room)
    case OnRedo(room) => Redo(s, a.sender, room)
  }

  /** The end of a run: the state reached, everything emitted, and whether a handler threw. */
  datatype Log<D> = Log(state: State<D>, out: seq<Message<D>>, crashed: bool)

  /** The run of `arrivals` from `s` when each arrival is handled by `step`. */
  function RunWith<D>(step: (State<D>, Arrival<D>) -> Effect<D>, s: State<D>, arrivals: seq<Arrival<D>>): Log<D>
    decreases |arrivals|
  {
    if |arrivals| == 0 then Log(s, [], false)
    else
      match step(s, arrivals[0])
      case Throw => Log(s, [], true)
      case Emit(t, out) =>
        var rest := RunWith(step, t, arrivals[1..]);
        Log(rest.state, out + rest.out, rest.crashed)
  }

  function Run<D>(s: State<D>, arrivals: seq<Arrival<D>>): Log<D>
  {
    RunWith(Handle, s, arrivals)
  }

  lemma {:induction false} RunWithAppend<D>(step: (State<D>, Arrival<D>) -> Effect<D>, s: State<D>, a: seq<Arrival<D>>, b: seq<Arrival<D>>)
    requires !RunWith(step, s, a).crashed
    ensures var first := RunWith(step, s, a);
            var second := RunWith(step, first.state, b);
            RunWith(step, s, a + b) == Log(second.state, first.out + second.out, second.crashed)
    decreases |a|
  {
    if |a| == 0 {
      assert a + b == b;
    } else {
      assert (a + b)[0] == a[0] && (a + b)[1..] == a[1..] + b;
      RunWithAppend(step, step(s, a[0]).state, a[1..], b);
    }
  }

  /** A run whose first arrival completes is that arrival's handler followed by the run of the rest. */
  lemma RunStep<D>(s: State<D>, a: seq<Arrival<D>>)
    requires |a| > 0 && Handle(s, a[0]).Emit?
    ensures var e := Handle(s, a[0]);
            var rest := Run(e.state, a[1..]);
            Run(s, a) == Log(rest.state, e.out + rest.out, rest.crashed)
  {
  }

  /** Running two sequences one after the other is running their concatenation. */
  lemma RunAppend<D>(s: State<D>, a: seq<Arrival<D>>, b: seq<Arrival<D>>)
    requires !Run(s, a).crashed
    ensures var first := Run(s, a);
            var second := Run(first.state, b);
            Run(s, a + b) == Log(second.state, first.out + second.out, second.crashed)
  {
    RunWithAppend(Handle, s, a, b);
  }

  /** The codes of the joins among the arrivals. */
  function JoinCodes<D>(arrivals: seq<Arrival<D>>): set<string>
    decreases |arrivals|
  {
    if |arrivals| == 0 then {}
    else
      (if arrivals[0].request.OnUserJoinRoom? then {arrivals[0].request.roomCode} else {})
      + JoinCodes(arrivals[1..])
  }

  /**
   Rooms are made only by joins and never removed: a run ends with every
   room it started with, no room whose code no join named, and, when no
   handler threw, a room for every code a join named.
   */
  lemma {:induction false} RoomsOnlyFromJoins<D>(s: State<D>, arrivals: seq<Arrival<D>>)
    ensures s.rooms.Keys <= Run(s, arrivals).state.rooms.Keys <= s.rooms.Keys + JoinCodes(arrivals)
    ensures !Run(s, arrivals).crashed ==>
              Run(s, arrivals).state.rooms.Keys == s.rooms.Keys + JoinCodes(arrivals)
    decreases |arrivals|
  {
    if |arrivals| > 0 {
      var e := Handle(s, arrivals[0]);
      if e.Emit? {
        RoomsOnlyFromJoins(e.state, arrivals[1..]);
      }
    }
  }

  /** Draw events in `room`, one per pair of `ops`: the socket that sends it and its payload. */
  function Strokes<D>(room: string, ops: seq<(SocketId, D)>): (r: seq<Arrival<D>>)
    ensures |r| == |ops|
  {
    if |ops| == 0 then [] else [Arrival(ops[0].0, OnDraw(room, ops[0].1))] + Strokes(room, ops[1..])
  }

  /** The payloads of `ops`, in order. */
  function Payloads<D>(ops: seq<(SocketId, D)>): (r: seq<D>)
    ensures |r| == |ops|
  {
    seq(|ops|, i requires 0 <= i < |ops| => ops[i].1)
  }

  /**
   Draws in an existing room, sent by any sockets in any interleaving,
   append their payloads to its history in arrival order, leave the redo
   stack empty, touch no other room, and relay each payload, in the same
   order, to the room without its sender.
   */
  lemma {:induction false} DrawsAppendInOrder<D>(s: State<D>, room: string, ops: seq<(SocketId, D)>)
    requires room in s.rooms
    ensures var log := Run(s, Strokes(room, ops));
      && !log.crashed
      && room in log.state.rooms
      && log.state.rooms[room].history == s.rooms[room].history + Payloads(ops)
      && (|ops| > 0 ==> log.state.rooms[room].redoStack == [])
      && (|ops| == 0 ==> log.state == s)
      && OthersUnchanged(s.rooms, log.state.rooms, room)
      && log.state.members == s.members
      && |log.out| == |ops|
      && forall i :: 0 <= i < |ops| ==> log.out[i] == Message(ToRoomExceptSender(room), DrawRelay(ops[i].1))
    decreases |ops|
  {
    if |ops| > 0 {
      var arrivals := Strokes(room, ops);
      var t := Draw(s, ops[0].0, room, ops[0].1).state;
      var rest := Run(t, arrivals[1..]);
      assert arrivals[1..] == Strokes(room, ops[1..]);
      DrawsAppendInOrder(t, room, ops[1..]);
      var log := Run(s, arrivals);
      assert log == Log(rest.state, [Message(ToRoomExceptSender(room), DrawRelay(ops[0].1))] + rest.out, rest.crashed);
      assert log.state.rooms[room].history == s.rooms[room].history + Payloads(ops) by {
        assert Payloads(ops) == [ops[0].1] + Payloads(ops[1..]);
        assert s.rooms[room].history + [ops[0].1] + Payloads(ops[1..]) == s.rooms[room].history + Payloads(ops);
      }
      assert OthersUnchanged(s.rooms, log.state.rooms, room) by {
        assert OthersUnchanged(s.rooms, t.rooms, room);
        assert OthersUnchanged(t.rooms, rest.state.rooms, room);
      }
    }
  }

  /**
   A room made by a join and then drawn in, by the joiner or by any other
   sockets, holds exactly the payloads drawn, in arrival order.
   */
  lemma NewRoomHistoryIsDraws<D>(s: State<D>, joiner: SocketId, code: string, ops: seq<(SocketId, D)>)
    requires code !in s.rooms
    ensures var log := Run(s, [Arrival(joiner, OnUserJoinRoom(code))] + Strokes(code, ops));
            !log.crashed && code in log.state.rooms && log.state.rooms[code].history == Payloads(ops)
  {
    var joined := Join(s, joiner, code).state;
    var arrivals := [Arrival(joiner, OnUserJoinRoom(code))] + Strokes(code, ops);
    assert arrivals[1..] == Strokes(code, ops);
    DrawsAppendInOrder(joined, code, ops);
  }

  predicate IsUndoOrRedo<D>(a: Arrival<D>)
  {
    a.request.OnUndo? || a.request.OnRedo?
  }

  /**
   Undo and redo never throw, never make or remove a room, and only move
   strokes between a room's two stacks: whatever undos and redos arrive,
   every room keeps its timeline and its number of strokes.
   */
  lemma {:induction false} UndoRedoKeepTimelines<D>(s: State<D>, arrivals: seq<Arrival<D>>)
    requires forall i :: 0 <= i < |arrivals| ==> IsUndoOrRedo(arrivals[i])
    ensures var log := Run(s, arrivals);
      && !log.crashed
      && log.state.members == s.members
      && log.state.rooms.Keys == s.rooms.Keys
      && forall c :: c in s.rooms ==>
           && Timeline(log.state.rooms[c]) == Timeline(s.rooms[c])
           && |log.state.rooms[c].history| + |log.state.rooms[c].redoStack|
              == |s.rooms[c].history| + |s.rooms[c].redoStack|
    decreases |arrivals|
  {
    if |arrivals| > 0 {
      var a := arrivals[0];
      var t := Handle(s, a).state;
      assert t.rooms.Keys == s.rooms.Keys && t.members == s.members;
      forall c | c in s.rooms
        ensures Timeline(t.rooms[c]) == Timeline(s.rooms[c])
        ensures |t.rooms[c].history| + |t.rooms[c].redoStack| == |s.rooms[c].history| + |s.rooms[c].redoStack|
      {
        if c == a.request.room && a.request.OnUndo? && |s.rooms[c].history| > 0 {
          UndoKeepsTimeline(s.rooms[c]);
        } else if c == a.request.room && a.request.OnRedo? && |s.rooms[c].redoStack| > 0 {
          RedoKeepsTimeline(s.rooms[c]);
        }
      }
      UndoRedoKeepTimelines(t, arrivals[1..]);
    }
  }

  /** `n` events of the same kind on one room, all from socket `sender`. */
  function Repeat<D>(n: nat, sender: SocketId, request: Request<D>): (r: seq<Arrival<D>>)
    ensures |r| == n
  {
    if n == 0 then [] else [Arrival(sender, request)] + Repeat(n - 1, sender, request)
  }

  /**
   An unbroken chain of `n` undos followed by `n` redos on the same room, by
   any sockets, gives back the server state exactly, as long as the room's
   history holds at least `n` strokes.
   */
  lemma {:induction false} UndosThenRedosRestore<D>(s: State<D>, p: SocketId, q: SocketId, room: string, n: nat)
    requires room in s.rooms && n <= |s.rooms[room].history|
    ensures var log := Run(s, Repeat(n, p, OnUndo(room)) + Repeat(n, q, OnRedo(room)));
            !log.crashed && log.state == s
    decreases n
  {
    var undos, redos := Repeat(n, p, OnUndo(room)), Repeat(n, q, OnRedo(room));
    if n == 0 {
      assert undos + redos == [];
      assert Run(s, []) == Log(s, [], false);
    } else {
      var t := Undo(s, p, room).state;
      var inner := Repeat(n - 1, p, OnUndo(room)) + Repeat(n - 1, q, OnRedo(room));
      UndosThenRedosRestore(t, p, q, room, n - 1);
      // the inner chain takes t back to t; one redo then takes t back to s
      RunAppend(t, inner, [Arrival(q, OnRedo(room))]);
      RedoAfterUndoRestores(s, p, q, room);
      RedoAfterUndo(s.rooms[room]);
      var redo := [Arrival(q, OnRedo(room))];
      RunStep(t, redo);
      assert redo[1..] == [] && Run(s, []) == Log(s, [], false);
      assert Run(t, inner + redo).state == s;
      RepeatSnoc<D>(n, q, OnRedo(room));
      assert undos + redos == [Arrival(p, OnUndo(room))] + (inner + [Arrival(q, OnRedo(room))]);
      var whole := undos + redos;
      assert whole[0] == Arrival(p, OnUndo(room)) && whole[1..] == inner + [Arrival(q, OnRedo(room))];
      RunStep(s, whole);
    }
  }

  lemma {:induction false} RepeatSnoc<D>(n: nat, sender: SocketId, request: Request<D>)
    requires n > 0
    ensures Repeat(n, sender, request) == Repeat(n - 1, sender, request) + [Arrival(sender, request)]
    decreases n
  {
    if n > 1 {
      RepeatSnoc(n - 1, sender, request);
    }
  }

  /**
   A first user makes room "ABC", draws op1 and op2 and undoes once: the
   history is [op1] and the redo stack [op2], and the whole room is sent
   [op1]. A redo then gives history [op1, op2] and an empty redo stack.
   */
  lemma DrawDrawUndoRedo<D>(p: SocketId, op1: D, op2: D)
    ensures var s1 := Join(State(map[], map[]), p, "ABC").state;
      var s2 := Draw(s1, p, "ABC", op1).state;
      var s3 := Draw(s2, p, "ABC", op2).state;
      var undo := Undo(s3, p, "ABC");
      && "ABC" in undo.state.rooms
      && undo.state.rooms["ABC"] == Room([op1], [op2])
      && undo.out == [Message(ToRoom("ABC"), LoadHistory([op1]))]
      && Redo(undo.state, p, "ABC").state.rooms["ABC"] == Room([op1, op2], [])
  {
  }

  /**
   A user joining "ABC" when it holds [op1] is sent its acknowledgement and
   the history [op1], and the rooms are left as they were.
   */
  lemma JoinExistingRoom<D>(s: State<D>, p: SocketId, op1: D)
    requires "ABC" in s.rooms && s.rooms["ABC"] == Room([op1], [])
    ensures var log := Run(s, [Arrival(p, OnUserJoinRoom("ABC"))]);
      && log.state.rooms == s.rooms
      && log.out == [Message(ToSender, UserIsJoined(true)), Message(ToSender, LoadHistory([op1]))]
  {
    var a := [Arrival(p, OnUserJoinRoom("ABC"))];
    RunStep(s, a);
    assert a[1..] == [];
  }
}
