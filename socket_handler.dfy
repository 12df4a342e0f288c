/**
 * The real-time relay of server/socket/socketHandler.js.
 *
 * The handler keeps two module-level maps: `activeRooms` (room -> set of
 * socket ids) and `userRooms` (socket id -> room). Socket.IO keeps its own
 * room channels, changed by `socket.join` / `socket.leave`, and resolves the
 * recipients of every emit against them at the moment of the emit:
 * `io.to(r)` reaches everyone in channel `r`, `socket.to(r)` everyone in it
 * but the sender, `socket.emit` the sender alone.
 *
 * Each handler is specified by a function from the old state to the new state
 * and the emits it makes, in order; the lemmas state what the relay promises
 * of those functions, and the class `SocketRelay.Relay` runs the handlers in place.
 */
module SocketHandler {
  import opened Wrappers
  import opened RoomModel
  import opened Protocol

  /** The addressee of an emit, as the handler writes it. */
  datatype Audience =
    | EveryoneIn(room: RoomId)                   // io.to(room)
    | OthersIn(room: RoomId, sender: SocketId)   // socket.to(room)
    | OnlySocket(socket: SocketId)               // socket.emit

  /** One emit: its addressee, the sockets it actually reaches, and the event. */
  datatype Emit = Emit(to: Audience, recipients: set<SocketId>, event: ServerEvent)

  /** The in-memory membership state: Socket.IO channels and the handler's two maps. */
  datatype Registry = Registry(
    channels: map<RoomId, set<SocketId>>,
    activeRooms: map<RoomId, set<SocketId>>,
    userRooms: map<SocketId, RoomId>)

  /** The registry when the server starts. */
  function EmptyRegistry(): Registry {
    Registry(map[], map[], map[])
  }

  /** The set stored for `r`, empty when there is none. */
  function Members(m: map<RoomId, set<SocketId>>, r: RoomId): set<SocketId> {
    if r in m then m[r] else {}
  }

  /** The sockets an emit to `a` reaches while the channels are `ch`. */
  function Deliver(ch: map<RoomId, set<SocketId>>, a: Audience): (r: set<SocketId>)
    ensures a.OthersIn? ==> a.sender !in r
    ensures !a.OnlySocket? ==> r <= Members(ch, a.room)
  {
    match a
    case EveryoneIn(room) => Members(ch, room)
    case OthersIn(room, sender) => Members(ch, room) - {sender}
    case OnlySocket(socket) => {socket}
  }

  /** An emit to `a`, resolved against the channels `ch`. */
  function Send(ch: map<RoomId, set<SocketId>>, a: Audience, e: ServerEvent): Emit {
    Emit(a, Deliver(ch, a), e)
  }

  /** `socket.join(r)`. */
  function JoinChannel(ch: map<RoomId, set<SocketId>>, r: RoomId, s: SocketId): map<RoomId, set<SocketId>> {
    ch[r := Members(ch, r) + {s}]
  }

  /** `socket.leave(r)`. */
  function LeaveChannel(ch: map<RoomId, set<SocketId>>, r: RoomId, s: SocketId): map<RoomId, set<SocketId>> {
    if r in ch then ch[r := ch[r] - {s}] else ch
  }

  /** What Socket.IO does to a closing socket before its "disconnect" handler runs: it leaves every channel. */
  function LeaveAllChannels(ch: map<RoomId, set<SocketId>>, s: SocketId): (r: map<RoomId, set<SocketId>>)
    ensures r.Keys == ch.Keys
    ensures forall q :: q in r ==> r[q] == ch[q] - {s}
  {
    map q | q in ch :: ch[q] - {s}
  }

  /** The room `userRooms` records for `s`, as an `if (room)` test sees it: the empty string counts as none. */
  function RecordedRoom(reg: Registry, s: SocketId): Option<RoomId> {
    if s in reg.userRooms && reg.userRooms[s] != "" then Some(reg.userRooms[s]) else None
  }

  /** A new registry and the emits made on the way, in order. */
  datatype Step = Step(reg: Registry, emits: seq<Emit>)

  /** The first part of "join-room": leaving the socket's recorded room, if any. */
  function LeavePrevious(reg: Registry, s: SocketId): Step {
    match RecordedRoom(reg, s)
    case None => Step(reg, [])
    case Some(prev) =>
      var ch := LeaveChannel(reg.channels, prev, s);
      if prev in reg.activeRooms then
        var users := reg.activeRooms[prev] - {s};
        Step(Registry(ch, reg.activeRooms[prev := users], reg.userRooms),
             [Send(ch, EveryoneIn(prev), UserCount(|users|)), Send(ch, OthersIn(prev, s), UserLeft(s))])
      else
        Step(reg.(channels := ch), [])
  }

  /** The second part of "join-room": admitting the socket to `r` and announcing the new count. */
  function Admit(reg: Registry, s: SocketId, r: RoomId): Step {
    var ch := JoinChannel(reg.channels, r, s);
    var users := Members(reg.activeRooms, r) + {s};
    Step(Registry(ch, reg.activeRooms[r := users], reg.userRooms[s := r]),
         [Send(ch, EveryoneIn(r), UserCount(|users|))])
  }

  /**
   * The last part of "join-room": the stored log, sent to the joiner alone
   * when it is not empty. `found` says whether `Room.findOne` resolved; when
   * it rejects, the handler's `catch` logs the error and nothing is sent.
   */
  function Replay(rooms: map<RoomId, Room>, s: SocketId, r: RoomId, found: bool): seq<Emit> {
    if found && r in rooms && |rooms[r].drawingData| > 0 then
      [Emit(OnlySocket(s), {s}, LoadDrawingData(rooms[r].drawingData))]
    else
      []
  }

  /** The "join-room" handler; `found` says whether the room lookup resolved. */
  function JoinStep(reg: Registry, rooms: map<RoomId, Room>, s: SocketId, r: RoomId, found: bool): Step {
    var left := LeavePrevious(reg, s);
    var admitted := Admit(left.reg, s, r);
    Step(admitted.reg, left.emits + admitted.emits + Replay(rooms, s, r, found))
  }

  /** `handleUserLeave(socket, r)`, run by "leave-room" and "disconnect". */
  function UserLeaveStep(reg: Registry, s: SocketId, r: RoomId): Step {
    var ch := LeaveChannel(reg.channels, r, s);
    if r in reg.activeRooms then
      var users := reg.activeRooms[r] - {s};
      var left := Send(reg.channels, OthersIn(r, s), UserLeft(s));
      if |users| == 0 then
        Step(Registry(ch, reg.activeRooms - {r}, reg.userRooms - {s}), [left])
      else
        Step(Registry(ch, reg.activeRooms[r := users], reg.userRooms - {s}),
             [left, Send(reg.channels, EveryoneIn(r), UserCount(|users|))])
    else
      Step(Registry(ch, reg.activeRooms, reg.userRooms - {s}), [])
  }

  /** The "disconnect" handler, after Socket.IO has taken the socket out of every channel. */
  function DisconnectStep(reg: Registry, s: SocketId): Step {
    var closed := reg.(channels := LeaveAllChannels(reg.channels, s));
    match RecordedRoom(reg, s)
    case None => Step(closed, [])
    case Some(r) => UserLeaveStep(closed, s, r)
  }

  /**
   * `Room.findOneAndUpdate({ roomId: r }, { $push: ..., lastActivity: now })`
   * when the write succeeds: there is no upsert, so a room without a document
   * is left as it is.
   */
  function AppendCommand(rooms: map<RoomId, Room>, r: RoomId, c: DrawingCommand, now: int): map<RoomId, Room> {
    if r in rooms then rooms[r := rooms[r].(drawingData := rooms[r].drawingData + [c], lastActivity := now)]
    else rooms
  }

  /** The clear handler's update: the whole log becomes `[c]`. */
  function ReplaceLog(rooms: map<RoomId, Room>, r: RoomId, c: DrawingCommand, now: int): map<RoomId, Room> {
    if r in rooms then rooms[r := rooms[r].(drawingData := [c], lastActivity := now)]
    else rooms
  }

  /** The whole server state: the registry and the room collection. */
  datatype Server = Server(reg: Registry, rooms: map<RoomId, Room>)

  /** A new server state and the emits made on the way, in order. */
  datatype Outcome = Outcome(server: Server, emits: seq<Emit>)

  /**
   * A drawing event's store update: `dbOk` says whether the database write
   * succeeded; when it failed the broadcast has already happened and the
   * store is as it was.
   */
  function Persist(sv: Server, r: RoomId, c: DrawingCommand, now: int, dbOk: bool): map<RoomId, Room> {
    if dbOk then AppendCommand(sv.rooms, r, c, now) else sv.rooms
  }

  /**
   * Everything the handler for `msg` from socket `s` does at time `now`.
   * `dbOk` says whether the handler's database call succeeds: the lookup of
   * "join-room", or the write of the drawing, clear, undo and redo handlers.
   */
  function Handle(sv: Server, s: SocketId, msg: ClientMessage, now: int, dbOk: bool): Outcome {
    var ch := sv.reg.channels;
    match msg
    case JoinRoom(r) =>
      var st := JoinStep(sv.reg, sv.rooms, s, r, dbOk);
      Outcome(Server(st.reg, sv.rooms), st.emits)
    case LeaveRoom(r) =>
      var st := UserLeaveStep(sv.reg, s, r);
      Outcome(Server(st.reg, sv.rooms), st.emits)
    case CursorMove(r, x, y) =>
      Outcome(sv, [Send(ch, OthersIn(r, s), CursorMoved(s, x, y))])
    case DrawStart(r, x, y, color, width) =>
      Outcome(sv.(rooms := Persist(sv, r, StrokeCommand(s, Start(x, y, color, width), now), now, dbOk)),
              [Send(ch, OthersIn(r, s), DrawStarted(x, y, color, width))])
    case DrawMove(r, x, y) =>
      Outcome(sv.(rooms := Persist(sv, r, StrokeCommand(s, Move(x, y), now), now, dbOk)),
              [Send(ch, OthersIn(r, s), DrawMoved(x, y))])
    case DrawEnd(r) =>
      Outcome(sv.(rooms := Persist(sv, r, StrokeCommand(s, End, now), now, dbOk)),
              [Send(ch, OthersIn(r, s), DrawEnded)])
    case ClearCanvas(r) =>
      Outcome(sv.(rooms := if dbOk then ReplaceLog(sv.rooms, r, MarkerCommand(Clear, s, now), now) else sv.rooms),
              [Send(ch, EveryoneIn(r), CanvasCleared)])
    case UndoAction(r) =>
      Outcome(sv.(rooms := Persist(sv, r, MarkerCommand(Undo, s, now), now, dbOk)),
              [Send(ch, OthersIn(r, s), UndoRelayed)])
    case RedoAction(r) =>
      Outcome(sv.(rooms := Persist(sv, r, MarkerCommand(Redo, s, now), now, dbOk)),
              [Send(ch, OthersIn(r, s), RedoRelayed)])
  }

  /** One inbound occurrence: a message from a socket, or a socket's connection closing. */
  datatype Inbound =
    | Message(from: SocketId, msg: ClientMessage, now: int, dbOk: bool)
    | Closed(socket: SocketId)

  /** What one inbound occurrence does. */
  function Apply(sv: Server, i: Inbound): Outcome {
    match i
    case Message(s, msg, now, dbOk) => Handle(sv, s, msg, now, dbOk)
    case Closed(s) =>
      var st := DisconnectStep(sv.reg, s);
      Outcome(Server(st.reg, sv.rooms), st.emits)
  }

  /** The server state after handling `trace` in order, one occurrence to completion before the next. */
  function Run(sv: Server, trace: seq<Inbound>): Server
    decreases |trace|
  {
    if trace == [] then sv else Run(Apply(sv, trace[0]).server, trace[1..])
  }

  // ---------------------------------------------------------------------
  // Membership

  /**
   * The one agreement between the two maps that the handlers keep: a socket
   * with a recorded room is a member of that room's set. (The converse does
   * not hold; see StaleMemberAfterMismatchedLeave.)
   */
  ghost predicate Consistent(reg: Registry) {
    forall s :: s in reg.userRooms ==> reg.userRooms[s] in reg.activeRooms && s in reg.activeRooms[reg.userRooms[s]]
  }

  /**
   * After "join-room" the socket is recorded in `r`, is in its channel and
   * in its set, which gains the socket once however often it joins; everyone
   * in the channel, the joiner included, is sent the size of that set.
   */
  lemma JoinAdmits(reg: Registry, rooms: map<RoomId, Room>, s: SocketId, r: RoomId, found: bool)
    ensures var st := JoinStep(reg, rooms, s, r, found);
      && r in st.reg.activeRooms
      && st.reg.activeRooms[r] == Members(reg.activeRooms, r) + {s}
      && st.reg.userRooms == reg.userRooms[s := r]
      && s in Members(st.reg.channels, r)
      && Send(st.reg.channels, EveryoneIn(r), UserCount(|st.reg.activeRooms[r]|)) in st.emits
  {
    var left := LeavePrevious(reg, s);
    LeavePreviousShape(reg, s, r);
    var admitted := Admit(left.reg, s, r);
    assert admitted.emits[0] in JoinStep(reg, rooms, s, r, found).emits;
  }

  /** Leaving the previous room changes only that room's set, and only by removing `s`. */
  lemma LeavePreviousShape(reg: Registry, s: SocketId, q: RoomId)
    ensures var left := LeavePrevious(reg, s);
      && left.reg.userRooms == reg.userRooms
      && Members(left.reg.activeRooms, q) - {s} == Members(reg.activeRooms, q) - {s}
      && (Members(left.reg.activeRooms, q) == Members(reg.activeRooms, q)
          || (RecordedRoom(reg, s) == Some(q) && Members(left.reg.activeRooms, q) == Members(reg.activeRooms, q) - {s}))
      && (q in reg.activeRooms ==> q in left.reg.activeRooms)
      && (forall e :: e in left.emits ==> e.event.UserCount? || e.event.UserLeft?)
  {
  }

  /**
   * Joining while recorded in another active room takes the socket out of
   * that room's set and channel first; the room stays in `activeRooms` even
   * when its set is now empty, its channel is sent the new size, and the
   * others in it are told the socket left.
   */
  lemma JoinLeavesPrevious(reg: Registry, rooms: map<RoomId, Room>, s: SocketId, r: RoomId, found: bool, prev: RoomId)
    requires RecordedRoom(reg, s) == Some(prev) && prev != r && prev in reg.activeRooms
    ensures var st := JoinStep(reg, rooms, s, r, found);
      && prev in st.reg.activeRooms
      && st.reg.activeRooms[prev] == reg.activeRooms[prev] - {s}
      && s !in Members(st.reg.channels, prev)
      && |st.emits| >= 3
      && st.emits[0] == Emit(EveryoneIn(prev), Members(reg.channels, prev) - {s}, UserCount(|reg.activeRooms[prev] - {s}|))
      && st.emits[1] == Emit(OthersIn(prev, s), Members(reg.channels, prev) - {s}, UserLeft(s))
  {
    var ch := LeaveChannel(reg.channels, prev, s);
    var users := reg.activeRooms[prev] - {s};
    var left := LeavePrevious(reg, s);
    assert left.reg == Registry(ch, reg.activeRooms[prev := users], reg.userRooms);
    assert left.emits == [Send(ch, EveryoneIn(prev), UserCount(|users|)), Send(ch, OthersIn(prev, s), UserLeft(s))];
    assert Members(ch, prev) == Members(reg.channels, prev) - {s};
    var admitted := Admit(left.reg, s, r);
    assert Members(admitted.reg.channels, prev) == Members(ch, prev);
  }

  /**
   * The drawing log goes to the joiner alone, after every other emit of the
   * join, exactly when the lookup resolved and the room has a document with a
   * non-empty log, and it carries that log in stored order; a rejected lookup
   * sends no log but leaves the membership changes in place.
   */
  lemma ReplayOnJoin(reg: Registry, rooms: map<RoomId, Room>, s: SocketId, r: RoomId, found: bool)
    ensures var st := JoinStep(reg, rooms, s, r, found);
      && ((exists e :: e in st.emits && e.event.LoadDrawingData?) <==> found && r in rooms && |rooms[r].drawingData| > 0)
      && (forall e :: e in st.emits && e.event.LoadDrawingData? ==>
            r in rooms && e == Emit(OnlySocket(s), {s}, LoadDrawingData(rooms[r].drawingData)))
      && (found && r in rooms && |rooms[r].drawingData| > 0 ==>
            st.emits[|st.emits| - 1] == Emit(OnlySocket(s), {s}, LoadDrawingData(rooms[r].drawingData)))
      && st.reg == JoinStep(reg, rooms, s, r, true).reg
  {
    var left := LeavePrevious(reg, s);
    var admitted := Admit(left.reg, s, r);
    var st := JoinStep(reg, rooms, s, r, found);
    assert forall e :: e in left.emits + admitted.emits ==> !e.event.LoadDrawingData?;
    if found && r in rooms && |rooms[r].drawingData| > 0 {
      assert st.emits[|st.emits| - 1] in st.emits;
    }
  }

  /**
   * `handleUserLeave(s, r)`: the socket leaves `r`'s set and has no recorded
   * room afterwards, whichever room it was recorded in; `r` is evicted exactly
   * when its set is left empty, and otherwise its channel is sent the
   * remaining size; the others in `r` are told the socket left; every other
   * room's set is untouched.
   */
  lemma UserLeaveRemoves(reg: Registry, s: SocketId, r: RoomId)
    ensures var st := UserLeaveStep(reg, s, r);
      && s !in Members(st.reg.activeRooms, r)
      && s !in st.reg.userRooms
      && st.reg.userRooms == reg.userRooms - {s}
      && (r in st.reg.activeRooms <==> Members(reg.activeRooms, r) - {s} != {})
      && (r in st.reg.activeRooms ==>
            && st.reg.activeRooms[r] == reg.activeRooms[r] - {s}
            && Send(reg.channels, EveryoneIn(r), UserCount(|st.reg.activeRooms[r]|)) in st.emits)
      && (r in reg.activeRooms ==> st.emits[0] == Emit(OthersIn(r, s), Members(reg.channels, r) - {s}, UserLeft(s)))
      && (r !in reg.activeRooms ==> st.emits == [])
      && (forall q :: q != r ==> Members(st.reg.activeRooms, q) == Members(reg.activeRooms, q))
  {
    if r in reg.activeRooms && |reg.activeRooms[r] - {s}| == 0 {
      assert reg.activeRooms[r] - {s} == {};
    }
  }

  /** "disconnect" from a socket with no recorded room changes neither map and emits nothing. */
  lemma DisconnectWithoutRoom(reg: Registry, s: SocketId)
    requires RecordedRoom(reg, s) == None
    ensures var st := DisconnectStep(reg, s);
      && st.reg.activeRooms == reg.activeRooms
      && st.reg.userRooms == reg.userRooms
      && st.emits == []
  {
  }

  /**
   * "disconnect" from a socket with a recorded room leaves that room as
   * `handleUserLeave` does, and no emit reaches the closed socket.
   */
  lemma DisconnectLeaves(reg: Registry, s: SocketId, r: RoomId)
    requires RecordedRoom(reg, s) == Some(r)
    ensures var st := DisconnectStep(reg, s);
      && s !in Members(st.reg.activeRooms, r)
      && s !in st.reg.userRooms
      && (forall e :: e in st.emits ==> s !in e.recipients)
  {
    var closed := reg.(channels := LeaveAllChannels(reg.channels, s));
    UserLeaveRemoves(closed, s, r);
  }

  /** The drawing, cursor, clear, undo and redo handlers leave the registry alone and emit one relayed event. */
  lemma RelayLeavesRegistry(sv: Server, s: SocketId, msg: ClientMessage, now: int, dbOk: bool)
    requires !msg.JoinRoom? && !msg.LeaveRoom?
    ensures var out := Handle(sv, s, msg, now, dbOk);
      && out.server.reg == sv.reg
      && |out.emits| == 1
      && !out.emits[0].event.UserLeft? && !out.emits[0].event.UserCount? && !out.emits[0].event.LoadDrawingData?
  {
  }

  /** Whatever it handles, the server never tells a socket that it itself left. */
  lemma NoSelfUserLeft(sv: Server, i: Inbound)
    ensures forall e :: e in Apply(sv, i).emits && e.event.UserLeft? ==> e.event.userId !in e.recipients
  {
    match i
    case Message(s, msg, now, dbOk) =>
      if msg.JoinRoom? {
        JoinNoSelfNotice(sv.reg, sv.rooms, s, msg.roomId, dbOk);
      } else if msg.LeaveRoom? {
        UserLeaveNoSelfNotice(sv.reg, s, msg.roomId);
      } else {
        RelayLeavesRegistry(sv, s, msg, now, dbOk);
      }
    case Closed(s) =>
      var closed := sv.reg.(channels := LeaveAllChannels(sv.reg.channels, s));
      if RecordedRoom(sv.reg, s).Some? {
        UserLeaveNoSelfNotice(closed, s, RecordedRoom(sv.reg, s).value);
      }
  }

  /** No emit in `emits` tells a socket that it itself left. */
  ghost predicate NoSelfNotice(emits: seq<Emit>) {
    forall e :: e in emits && e.event.UserLeft? ==> e.event.userId !in e.recipients
  }

  lemma JoinNoSelfNotice(reg: Registry, rooms: map<RoomId, Room>, s: SocketId, r: RoomId, found: bool)
    ensures NoSelfNotice(JoinStep(reg, rooms, s, r, found).emits)
  {
    var left := LeavePrevious(reg, s);
    var admitted := Admit(left.reg, s, r);
    var replay := Replay(rooms, s, r, found);
    assert NoSelfNotice(left.emits) by {
      if RecordedRoom(reg, s).Some? && RecordedRoom(reg, s).value in reg.activeRooms {
        var prev := RecordedRoom(reg, s).value;
        var ch := LeaveChannel(reg.channels, prev, s);
        assert left.emits == [Send(ch, EveryoneIn(prev), UserCount(|reg.activeRooms[prev] - {s}|)), Send(ch, OthersIn(prev, s), UserLeft(s))];
      }
    }
    assert NoSelfNotice(admitted.emits + replay);
  }

  lemma UserLeaveNoSelfNotice(reg: Registry, s: SocketId, r: RoomId)
    ensures NoSelfNotice(UserLeaveStep(reg, s, r).emits)
  {
  }

  /** Every handler keeps the membership agreement. */
  lemma ApplyKeepsConsistent(sv: Server, i: Inbound)
    requires Consistent(sv.reg)
    ensures Consistent(Apply(sv, i).server.reg)
  {
    match i
    case Message(s, msg, now, dbOk) =>
      match msg {
        case JoinRoom(r) => JoinKeepsConsistent(sv.reg, sv.rooms, s, r, dbOk);
        case LeaveRoom(r) => UserLeaveKeepsConsistent(sv.reg, s, r);
        case _ =>
      }
    case Closed(s) =>
      var closed := sv.reg.(channels := LeaveAllChannels(sv.reg.channels, s));
      if RecordedRoom(sv.reg, s).Some? {
        UserLeaveKeepsConsistent(closed, s, RecordedRoom(sv.reg, s).value);
      }
  }

  lemma JoinKeepsConsistent(reg: Registry, rooms: map<RoomId, Room>, s: SocketId, r: RoomId, found: bool)
    requires Consistent(reg)
    ensures Consistent(JoinStep(reg, rooms, s, r, found).reg)
  {
    var left := LeavePrevious(reg, s);
    var st := JoinStep(reg, rooms, s, r, found);
    forall t | t in st.reg.userRooms && t != s
      ensures st.reg.userRooms[t] in st.reg.activeRooms && t in st.reg.activeRooms[st.reg.userRooms[t]]
    {
      assert left.reg.userRooms[t] == reg.userRooms[t];
      assert t in left.reg.activeRooms[reg.userRooms[t]];
    }
  }

  lemma UserLeaveKeepsConsistent(reg: Registry, s: SocketId, r: RoomId)
    requires Consistent(reg)
    ensures Consistent(UserLeaveStep(reg, s, r).reg)
  {
    var st := UserLeaveStep(reg, s, r);
    forall t | t in st.reg.userRooms
      ensures st.reg.userRooms[t] in st.reg.activeRooms && t in st.reg.activeRooms[st.reg.userRooms[t]]
    {
      var q := reg.userRooms[t];
      if q == r {
        assert t in reg.activeRooms[r] - {s};
      }
    }
  }

  /** From the empty registry, every sequence of messages and disconnects keeps the membership agreement. */
  lemma {:induction false} RunKeepsConsistent(sv: Server, trace: seq<Inbound>)
    requires Consistent(sv.reg)
    ensures Consistent(Run(sv, trace).reg)
    decreases |trace|
  {
    if trace != [] {
      ApplyKeepsConsistent(sv, trace[0]);
      RunKeepsConsistent(Apply(sv, trace[0]).server, trace[1..]);
    }
  }

  /** The count sent last to everyone in `q` among `emits`, if any. */
  function LastCountFor(emits: seq<Emit>, q: RoomId): Option<nat> {
    if emits == [] then None
    else
      var e := emits[|emits| - 1];
      if e.to == EveryoneIn(q) && e.event.UserCount? then Some(e.event.count)
      else LastCountFor(emits[..|emits| - 1], q)
  }

  lemma {:induction false} LastCountForAppend(a: seq<Emit>, b: seq<Emit>, q: RoomId)
    ensures LastCountFor(a + b, q) == if LastCountFor(b, q).Some? then LastCountFor(b, q) else LastCountFor(a, q)
    decreases |b|
  {
    if b == [] {
      assert a + b == a;
    } else {
      assert (a + b)[..|a + b| - 1] == a + b[..|b| - 1];
      LastCountForAppend(a, b[..|b| - 1], q);
    }
  }

  /**
   * After any handler, the last user count it sent to a room's channel is the
   * size of that room's set in the resulting state.
   */
  lemma UserCountIsCurrent(sv: Server, i: Inbound, q: RoomId)
    ensures var out := Apply(sv, i);
      LastCountFor(out.emits, q).Some? ==> LastCountFor(out.emits, q).value == |Members(out.server.reg.activeRooms, q)|
  {
    match i
    case Message(s, msg, now, dbOk) =>
      if msg.JoinRoom? {
        JoinCountIsCurrent(sv.reg, sv.rooms, s, msg.roomId, dbOk, q);
      } else if msg.LeaveRoom? {
        UserLeaveCountIsCurrent(sv.reg, s, msg.roomId, q);
      } else {
        RelayLeavesRegistry(sv, s, msg, now, dbOk);
        var out := Handle(sv, s, msg, now, dbOk);
        assert out.emits[..0] == [];
      }
    case Closed(s) =>
      var closed := sv.reg.(channels := LeaveAllChannels(sv.reg.channels, s));
      if RecordedRoom(sv.reg, s).Some? {
        UserLeaveCountIsCurrent(closed, s, RecordedRoom(sv.reg, s).value, q);
      }
  }

  /** The count a single emit contributes. */
  lemma LastCountForOne(e: Emit, q: RoomId)
    ensures LastCountFor([e], q) == if e.to == EveryoneIn(q) && e.event.UserCount? then Some(e.event.count) else None
  {
    assert [e][..0] == [];
  }

  lemma LastCountForTwo(a: Emit, b: Emit, q: RoomId)
    ensures LastCountFor([a, b], q) == if LastCountFor([b], q).Some? then LastCountFor([b], q) else LastCountFor([a], q)
  {
    LastCountForAppend([a], [b], q);
    assert [a] + [b] == [a, b];
  }

  lemma LeavePreviousCount(reg: Registry, s: SocketId, q: RoomId)
    ensures var left := LeavePrevious(reg, s);
      LastCountFor(left.emits, q).Some? ==> LastCountFor(left.emits, q).value == |Members(left.reg.activeRooms, q)|
  {
    var left := LeavePrevious(reg, s);
    if left.emits != [] {
      LastCountForTwo(left.emits[0], left.emits[1], q);
      LastCountForOne(left.emits[0], q);
      LastCountForOne(left.emits[1], q);
      assert left.emits == [left.emits[0], left.emits[1]];
    }
  }

  lemma AdmitCount(reg: Registry, s: SocketId, r: RoomId, q: RoomId)
    ensures var admitted := Admit(reg, s, r);
      && LastCountFor(admitted.emits, q) == (if q == r then Some(|Members(admitted.reg.activeRooms, r)|) else None)
      && (q != r ==> Members(admitted.reg.activeRooms, q) == Members(reg.activeRooms, q))
  {
    var admitted := Admit(reg, s, r);
    LastCountForOne(admitted.emits[0], q);
    assert admitted.emits == [admitted.emits[0]];
  }

  lemma JoinCountIsCurrent(reg: Registry, rooms: map<RoomId, Room>, s: SocketId, r: RoomId, found: bool, q: RoomId)
    ensures var st := JoinStep(reg, rooms, s, r, found);
      LastCountFor(st.emits, q).Some? ==> LastCountFor(st.emits, q).value == |Members(st.reg.activeRooms, q)|
  {
    var left := LeavePrevious(reg, s);
    var admitted := Admit(left.reg, s, r);
    var rep := Replay(rooms, s, r, found);
    LastCountForAppend(left.emits + admitted.emits, rep, q);
    LastCountForAppend(left.emits, admitted.emits, q);
    if rep != [] {
      LastCountForOne(rep[0], q);
      assert rep == [rep[0]];
    }
    AdmitCount(left.reg, s, r, q);
    LeavePreviousCount(reg, s, q);
  }

  lemma UserLeaveCountIsCurrent(reg: Registry, s: SocketId, r: RoomId, q: RoomId)
    ensures var st := UserLeaveStep(reg, s, r);
      LastCountFor(st.emits, q).Some? ==> LastCountFor(st.emits, q).value == |Members(st.reg.activeRooms, q)|
  {
    var st := UserLeaveStep(reg, s, r);
    if r in reg.activeRooms {
      LastCountForOne(st.emits[0], q);
      if |reg.activeRooms[r] - {s}| != 0 {
        LastCountForTwo(st.emits[0], st.emits[1], q);
        LastCountForOne(st.emits[1], q);
        assert st.emits == [st.emits[0], st.emits[1]];
      } else {
        assert st.emits == [st.emits[0]];
      }
    }
  }

  /**
   * The membership maps do not agree both ways: after "leave-room" names a
   * room other than the socket's own, the socket has no recorded room but is
   * still counted in the room it joined, and a later "disconnect" does not
   * remove it.
   */
  lemma StaleMemberAfterMismatchedLeave()
    ensures var sv := Server(EmptyRegistry(), map[]);
      var after := Run(sv, [Message("s1", JoinRoom("ROOM1"), 0, true),
                            Message("s1", LeaveRoom("ROOM2"), 0, true),
                            Closed("s1")]);
      && "s1" in Members(after.reg.activeRooms, "ROOM1")
      && "s1" !in after.reg.userRooms
  {
    var sv0 := Server(EmptyRegistry(), map[]);
    var sv1 := Apply(sv0, Message("s1", JoinRoom("ROOM1"), 0, true)).server;
    assert sv1.reg.activeRooms == map["ROOM1" := {"s1"}];
    var sv2 := Apply(sv1, Message("s1", LeaveRoom("ROOM2"), 0, true)).server;
    assert sv2.reg.activeRooms == sv1.reg.activeRooms;
    assert "s1" !in sv2.reg.userRooms;
    var sv3 := Apply(sv2, Closed("s1")).server;
    assert sv3.reg.activeRooms == sv2.reg.activeRooms;
    var trace := [Message("s1", JoinRoom("ROOM1"), 0, true), Message("s1", LeaveRoom("ROOM2"), 0, true), Closed("s1")];
    assert trace[1..][1..][1..] == [];
    assert Run(sv0, trace) == sv3;
  }

  // ---------------------------------------------------------------------
  // Relay and command log

  /** The command kind each logged event is stored as. */
  function LoggedKind(msg: ClientMessage): CommandType {
    match msg
    case UndoAction(_) => Undo
    case RedoAction(_) => Redo
    case ClearCanvas(_) => Clear
    case _ => Stroke
  }

  /**
   * "draw-start", "draw-move", "draw-end", "undo-action" and "redo-action" are
   * relayed once, to the others in the named room only (never back to the
   * sender), and leave the registry alone. A successful write to a room that
   * has a document appends exactly one command of the matching kind, by the
   * sender, at the end of its log, keeping every earlier entry; otherwise
   * nothing is stored. No other room changes and no document is created.
   */
  lemma RelayAppendsOne(sv: Server, s: SocketId, msg: ClientMessage, now: int, dbOk: bool)
    requires msg.DrawStart? || msg.DrawMove? || msg.DrawEnd? || msg.UndoAction? || msg.RedoAction?
    ensures var out := Handle(sv, s, msg, now, dbOk); var r := msg.roomId;
      && out.server.reg == sv.reg
      && |out.emits| == 1
      && out.emits[0].to == OthersIn(r, s)
      && out.emits[0].recipients == Members(sv.reg.channels, r) - {s}
      && out.server.rooms.Keys == sv.rooms.Keys
      && (forall q :: q in sv.rooms && q != r ==> out.server.rooms[q] == sv.rooms[q])
      && (dbOk && r in sv.rooms ==>
            var before := sv.rooms[r].drawingData;
            var after := out.server.rooms[r].drawingData;
            && |after| == |before| + 1
            && after[..|before|] == before
            && after[|before|].kind == LoggedKind(msg)
            && WellFormed(after[|before|])
            && after[|before|].data.userId == s
            && after[|before|].timestamp == now
            && (msg.DrawStart? ==> after[|before|].data.action == Start(msg.x, msg.y, msg.color, msg.strokeWidth))
            && (msg.DrawMove? ==> after[|before|].data.action == Move(msg.x, msg.y))
            && (msg.DrawEnd? ==> after[|before|].data.action == End)
            && out.server.rooms[r].lastActivity == now
            && out.server.rooms[r].roomId == sv.rooms[r].roomId)
      && (!(dbOk && msg.roomId in sv.rooms) ==> out.server.rooms == sv.rooms)
  {
    var r := msg.roomId;
    var out := Handle(sv, s, msg, now, dbOk);
    if dbOk && r in sv.rooms {
      var before := sv.rooms[r].drawingData;
      assert out.server.rooms[r].drawingData[..|before|] == before;
    }
  }

  /**
   * "clear-canvas" is delivered to everyone in the room's channel, the sender
   * included when it is in it, and after a successful write the room's log is
   * exactly one clear command by the sender.
   */
  lemma ClearReplacesLog(sv: Server, s: SocketId, r: RoomId, now: int, dbOk: bool)
    ensures var out := Handle(sv, s, ClearCanvas(r), now, dbOk);
      && out.server.reg == sv.reg
      && out.emits == [Emit(EveryoneIn(r), Members(sv.reg.channels, r), CanvasCleared)]
      && (s in Members(sv.reg.channels, r) ==> s in out.emits[0].recipients)
      && out.server.rooms.Keys == sv.rooms.Keys
      && (forall q :: q in sv.rooms && q != r ==> out.server.rooms[q] == sv.rooms[q])
      && (dbOk && r in sv.rooms ==>
            var log := out.server.rooms[r].drawingData;
            && |log| == 1
            && log[0].kind == Clear
            && log[0].data == MarkerData(s, now)
            && out.server.rooms[r].lastActivity == now)
      && (!(dbOk && r in sv.rooms) ==> out.server.rooms == sv.rooms)
  {
  }

  /** "cursor-move" changes no state and goes to the others in the room, carrying the sender's id. */
  lemma CursorNotLogged(sv: Server, s: SocketId, r: RoomId, x: real, y: real, now: int, dbOk: bool)
    ensures var out := Handle(sv, s, CursorMove(r, x, y), now, dbOk);
      && out.server == sv
      && out.emits == [Emit(OthersIn(r, s), Members(sv.reg.channels, r) - {s}, CursorMoved(s, x, y))]
  {
  }

  /** No handler creates or deletes a room document, and stored documents stay keyed by their own id. */
  lemma ApplyKeepsDocuments(sv: Server, i: Inbound)
    requires WellKeyed(sv.rooms)
    ensures Apply(sv, i).server.rooms.Keys == sv.rooms.Keys
    ensures WellKeyed(Apply(sv, i).server.rooms)
  {
  }
}
