/**
 * The socket handler's module-level state, changed in place: the
 * `activeRooms` and `userRooms` maps of server/socket/socketHandler.js,
 * Socket.IO's channel membership and the room collection. Each handler
 * method leaves exactly the state and emits the matching step function of
 * SocketHandler describes.
 */
module SocketRelay {
  import opened RoomModel
  import opened Protocol
  import opened SocketHandler

  /** Concatenation of emit lists is associative: appending `b`, `c` and `d` one by one appends `b + c + d`. */
  lemma AppendAssoc(a: seq<Emit>, b: seq<Emit>, c: seq<Emit>, d: seq<Emit>)
    ensures a + b + c + d == a + (b + c + d)
  {
  }

  /**
   * The relay as the server runs it: `activeRooms` and `userRooms` are the
   * handler's maps, `channels` is Socket.IO's room membership, `db` is the
   * room collection, and `outbox` records every emit in order.
   */
  class Relay {
    var channels: map<RoomId, set<SocketId>>
    var activeRooms: map<RoomId, set<SocketId>>
    var userRooms: map<SocketId, RoomId>
    const db: RoomCollection
    ghost var outbox: seq<Emit>

    /** The membership state as a value. */
    function Current(): Registry
      reads this
    {
      Registry(channels, activeRooms, userRooms)
    }

    /** The whole server state as a value. */
    ghost function State(): Server
      reads this, db
    {
      Server(Current(), db.rooms)
    }

    ghost predicate Valid()
      reads this
    {
      Consistent(Current())
    }

    /** Module load: both maps empty, nobody connected. */
    constructor (db: RoomCollection)
      ensures this.db == db && Current() == EmptyRegistry() && outbox == [] && Valid()
    {
      this.db := db;
      channels, activeRooms, userRooms := map[], map[], map[];
      outbox := [];
    }

    /** One emit, resolved against the channels as they are now. */
    ghost method Record(to: Audience, e: ServerEvent)
      modifies this`outbox
      ensures outbox == old(outbox) + [Send(channels, to, e)]
    {
      outbox := outbox + [Send(channels, to, e)];
    }

    /** The "join-room" handler; `found` says whether `Room.findOne` resolves. */
    method OnJoinRoom(s: SocketId, r: RoomId, found: bool)
      requires Valid()
      modifies this
      ensures Valid()
      ensures var st := JoinStep(old(Current()), db.rooms, s, r, found);
        Current() == st.reg && outbox == old(outbox) + st.emits
    {
      ghost var reg0, out0 := Current(), outbox;
      ghost var left := LeavePrevious(reg0, s);
      ghost var admitted := Admit(left.reg, s, r);
      ghost var replay := Replay(db.rooms, s, r, found);
      JoinKeepsConsistent(reg0, db.rooms, s, r, found);
      LeavePreviousRoom(s);
      AdmitTo(s, r);
      SendStoredLog(s, r, found);
      AppendAssoc(out0, left.emits, admitted.emits, replay);
    }

    /**
     * "join-room", last part: the stored log goes to the joiner when the
     * lookup resolves and the log is not empty; a rejected lookup is caught
     * and sends nothing.
     */
    method SendStoredLog(s: SocketId, r: RoomId, found: bool)
      modifies this`outbox
      ensures outbox == old(outbox) + Replay(db.rooms, s, r, found)
    {
      if !found {
        return;
      }
      if r in db.rooms && |db.rooms[r].drawingData| > 0 {
        outbox := outbox + [Emit(OnlySocket(s), {s}, LoadDrawingData(db.rooms[r].drawingData))];
      }
    }

    /** "join-room", first part: leave the recorded previous room, if any. */
    method LeavePreviousRoom(s: SocketId)
      modifies this
      ensures var st := LeavePrevious(old(Current()), s);
        Current() == st.reg && outbox == old(outbox) + st.emits
    {
      if s in userRooms && userRooms[s] != "" {
        var previousRoom := userRooms[s];
        channels := LeaveChannel(channels, previousRoom, s);
        if previousRoom in activeRooms {
          var roomUsers := activeRooms[previousRoom] - {s};
          activeRooms := activeRooms[previousRoom := roomUsers];
          Record(EveryoneIn(previousRoom), UserCount(|roomUsers|));
          Record(OthersIn(previousRoom, s), UserLeft(s));
        }
      }
    }

    /** "join-room", second part: join `r` and send its user count. */
    method AdmitTo(s: SocketId, r: RoomId)
      modifies this
      ensures var st := Admit(old(Current()), s, r);
        Current() == st.reg && outbox == old(outbox) + st.emits
    {
      channels := JoinChannel(channels, r, s);
      userRooms := userRooms[s := r];
      // the room's set, created empty when the room has none yet, gains `s`
      var roomUsers := Members(activeRooms, r) + {s};
      activeRooms := activeRooms[r := roomUsers];
      var userCount := |roomUsers|;
      Record(EveryoneIn(r), UserCount(userCount));
    }

    /** `handleUserLeave(socket, r)`. */
    method HandleUserLeave(s: SocketId, r: RoomId)
      requires Valid()
      modifies this
      ensures Valid()
      ensures var st := UserLeaveStep(old(Current()), s, r);
        Current() == st.reg && outbox == old(outbox) + st.emits
      ensures s !in userRooms
    {
      UserLeaveKeepsConsistent(Current(), s, r);
      if r in activeRooms {
        var roomUsers := activeRooms[r] - {s};
        Record(OthersIn(r, s), UserLeft(s));
        if |roomUsers| == 0 {
          activeRooms := activeRooms - {r};
        } else {
          activeRooms := activeRooms[r := roomUsers];
          Record(EveryoneIn(r), UserCount(|roomUsers|));
        }
      }
      userRooms := userRooms - {s};
      channels := LeaveChannel(channels, r, s);
    }

    /** The "leave-room" handler. */
    method OnLeaveRoom(s: SocketId, r: RoomId)
      requires Valid()
      modifies this
      ensures Valid()
      ensures var st := UserLeaveStep(old(Current()), s, r);
        Current() == st.reg && outbox == old(outbox) + st.emits
    {
      HandleUserLeave(s, r);
    }

    /** The "disconnect" handler, which runs after Socket.IO has taken the socket out of every channel. */
    method OnDisconnect(s: SocketId)
      requires Valid()
      modifies this
      ensures Valid()
      ensures var st := DisconnectStep(old(Current()), s);
        Current() == st.reg && outbox == old(outbox) + st.emits
    {
      channels := LeaveAllChannels(channels, s);
      if s in userRooms && userRooms[s] != "" {
        HandleUserLeave(s, userRooms[s]);
      }
    }

    /** The "cursor-move" handler. */
    method OnCursorMove(s: SocketId, r: RoomId, x: real, y: real)
      modifies this`outbox
      ensures outbox == old(outbox) + [Send(channels, OthersIn(r, s), CursorMoved(s, x, y))]
    {
      Record(OthersIn(r, s), CursorMoved(s, x, y));
    }

    /** `findOneAndUpdate` with `$push`, when the write succeeds. */
    method PushCommand(r: RoomId, c: DrawingCommand, now: int)
      modifies db
      ensures db.rooms == AppendCommand(old(db.rooms), r, c, now)
    {
      if r in db.rooms {
        var room := db.rooms[r];
        db.rooms := db.rooms[r := room.(drawingData := room.drawingData + [c], lastActivity := now)];
      }
    }

    /** The "draw-start" handler; `dbOk` is whether the database write succeeds. */
    method OnDrawStart(s: SocketId, r: RoomId, x: real, y: real, color: string, strokeWidth: real, now: int, dbOk: bool)
      modifies this`outbox, db
      ensures var out := Handle(old(State()), s, DrawStart(r, x, y, color, strokeWidth), now, dbOk);
        State() == out.server && outbox == old(outbox) + out.emits
    {
      Record(OthersIn(r, s), DrawStarted(x, y, color, strokeWidth));
      if dbOk {
        PushCommand(r, StrokeCommand(s, Start(x, y, color, strokeWidth), now), now);
      }
    }

    /** The "draw-move" handler. */
    method OnDrawMove(s: SocketId, r: RoomId, x: real, y: real, now: int, dbOk: bool)
      modifies this`outbox, db
      ensures var out := Handle(old(State()), s, DrawMove(r, x, y), now, dbOk);
        State() == out.server && outbox == old(outbox) + out.emits
    {
      Record(OthersIn(r, s), DrawMoved(x, y));
      if dbOk {
        PushCommand(r, StrokeCommand(s, Move(x, y), now), now);
      }
    }

    /** The "draw-end" handler. */
    method OnDrawEnd(s: SocketId, r: RoomId, now: int, dbOk: bool)
      modifies this`outbox, db
      ensures var out := Handle(old(State()), s, DrawEnd(r), now, dbOk);
        State() == out.server && outbox == old(outbox) + out.emits
    {
      Record(OthersIn(r, s), DrawEnded);
      if dbOk {
        PushCommand(r, StrokeCommand(s, End, now), now);
      }
    }

    /** The "clear-canvas" handler: everyone in the room hears it, and the log is replaced. */
    method OnClearCanvas(s: SocketId, r: RoomId, now: int, dbOk: bool)
      modifies this`outbox, db
      ensures var out := Handle(old(State()), s, ClearCanvas(r), now, dbOk);
        State() == out.server && outbox == old(outbox) + out.emits
    {
      Record(EveryoneIn(r), CanvasCleared);
      if dbOk && r in db.rooms {
        var room := db.rooms[r];
        db.rooms := db.rooms[r := room.(drawingData := [MarkerCommand(Clear, s, now)], lastActivity := now)];
      }
    }

    /** The "undo-action" handler: relayed to the others only, so it never loops back. */
    method OnUndoAction(s: SocketId, r: RoomId, now: int, dbOk: bool)
      modifies this`outbox, db
      ensures var out := Handle(old(State()), s, UndoAction(r), now, dbOk);
        State() == out.server && outbox == old(outbox) + out.emits
    {
      Record(OthersIn(r, s), UndoRelayed);
      if dbOk {
        PushCommand(r, MarkerCommand(Undo, s, now), now);
      }
    }

    /** The "redo-action" handler. */
    method OnRedoAction(s: SocketId, r: RoomId, now: int, dbOk: bool)
      modifies this`outbox, db
      ensures var out := Handle(old(State()), s, RedoAction(r), now, dbOk);
        State() == out.server && outbox == old(outbox) + out.emits
    {
      Record(OthersIn(r, s), RedoRelayed);
      if dbOk {
        PushCommand(r, MarkerCommand(Redo, s, now), now);
      }
    }
  }
}
