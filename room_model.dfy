/**
 * The persisted data model of server/models/Room.js: a room document with its
 * ordered drawing-command log, and the Mongo collection holding those documents.
 *
 * Times are milliseconds since the epoch (JavaScript `Date` values); the
 * current time is always a parameter. Coordinates, colours and stroke widths
 * are carried as given and never computed with.
 */
module RoomModel {
  import opened Wrappers
  import opened Text

  /** A room code, as the client and the store spell it. */
  type RoomId = string
  /** A Socket.IO connection id (`socket.id`), used as the participant id. */
  type SocketId = string

  /** The `type` enum of a drawing command: exactly stroke, clear, undo or redo. */
  datatype CommandType = Stroke | Clear | Undo | Redo

  /** The stored spelling of each command type. */
  function TypeName(t: CommandType): string {
    match t
    case Stroke => "stroke"
    case Clear => "clear"
    case Undo => "undo"
    case Redo => "redo"
  }

  /** The enum check a command's `type` must pass: a name outside the four is refused. */
  function ParseType(name: string): (r: Option<CommandType>)
    ensures r.Some? <==> name in {"stroke", "clear", "undo", "redo"}
    ensures r.Some? ==> TypeName(r.value) == name
  {
    if name == "stroke" then Some(Stroke)
    else if name == "clear" then Some(Clear)
    else if name == "undo" then Some(Undo)
    else if name == "redo" then Some(Redo)
    else None
  }

  /** Every command type survives a write and a read of its stored name. */
  lemma TypeNameRoundTrip(t: CommandType)
    ensures ParseType(TypeName(t)) == Some(t)
  {
  }

  /** The sub-action of a stroke command, with the fields the socket handler stores for it. */
  datatype StrokeAction =
    | Start(x: real, y: real, color: string, strokeWidth: real)
    | Move(x: real, y: real)
    | End

  /**
   * The required `data` payload. Strokes carry their sub-action and the
   * originating socket; clear, undo and redo carry the socket and the time.
   */
  datatype CommandData =
    | StrokeData(action: StrokeAction, userId: SocketId)
    | MarkerData(userId: SocketId, at: int)

  /** One entry of a room's `drawingData`; `timestamp` is the creation time (`default: Date.now`). */
  datatype DrawingCommand = DrawingCommand(kind: CommandType, data: CommandData, timestamp: int)

  /** Stroke commands carry stroke data and the other three kinds carry a marker. */
  predicate WellFormed(c: DrawingCommand) {
    c.kind == Stroke <==> c.data.StrokeData?
  }

  /** A stroke command created at `now` by socket `s`. */
  function StrokeCommand(s: SocketId, action: StrokeAction, now: int): (c: DrawingCommand)
    ensures WellFormed(c) && c.kind == Stroke && c.data.action == action && c.data.userId == s
    ensures c.timestamp == now
  {
    DrawingCommand(Stroke, StrokeData(action, s), now)
  }

  /** A clear, undo or redo command created at `now` by socket `s`. */
  function MarkerCommand(kind: CommandType, s: SocketId, now: int): (c: DrawingCommand)
    requires kind != Stroke
    ensures WellFormed(c) && c.kind == kind && c.data.userId == s
    ensures c.timestamp == now && c.data.at == now
  {
    DrawingCommand(kind, MarkerData(s, now), now)
  }

  /** A room document. `totalStrokes` and `lastClearTimestamp` are declared but never written by the server. */
  datatype Room = Room(
    roomId: RoomId,
    createdAt: int,
    lastActivity: int,
    drawingData: seq<DrawingCommand>,
    totalStrokes: int,
    lastClearTimestamp: Option<int>)

  /** `new Room({ roomId: id })` at time `now`, with every schema default applied. */
  function NewRoom(id: string, now: int): (r: Room)
    ensures r.roomId == ToUpper(id) && IsUpper(r.roomId) && |r.roomId| == |id|
    ensures r.drawingData == [] && r.totalStrokes == 0 && r.lastClearTimestamp == None
    ensures r.createdAt == now && r.lastActivity == now
  {
    ToUpperShape(id);
    Room(ToUpper(id), now, now, [], 0, None)
  }

  /** The pre-save hook: every save stamps `lastActivity` with the save time and touches nothing else. */
  function PreSave(room: Room, now: int): (r: Room)
    ensures r.lastActivity == now
    ensures r.roomId == room.roomId && r.createdAt == room.createdAt && r.drawingData == room.drawingData
    ensures r.totalStrokes == room.totalStrokes && r.lastClearTimestamp == room.lastClearTimestamp
  {
    room.(lastActivity := now)
  }

  /** A set of documents is keyed by their unique `roomId`, each stored upper-case. */
  ghost predicate WellKeyed(rooms: map<RoomId, Room>) {
    forall k :: k in rooms ==> rooms[k].roomId == k && IsUpper(k)
  }

  /** The `Room` collection: documents indexed by their unique `roomId`. */
  class RoomCollection {
    var rooms: map<RoomId, Room>

    constructor ()
      ensures rooms == map[]
    {
      rooms := map[];
    }
  }
}
