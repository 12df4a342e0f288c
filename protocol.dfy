/**
 * The Socket.IO event protocol between the whiteboard client and the relay
 * server: the messages a client emits and the events the server emits back.
 */
module Protocol {
  import opened RoomModel

  /** What a client emits to the server; each carries the room it names (unchecked by the server). */
  datatype ClientMessage =
    | JoinRoom(roomId: RoomId)
    | LeaveRoom(roomId: RoomId)
    | CursorMove(roomId: RoomId, x: real, y: real)
    | DrawStart(roomId: RoomId, x: real, y: real, color: string, strokeWidth: real)
    | DrawMove(roomId: RoomId, x: real, y: real)
    | DrawEnd(roomId: RoomId)
    | ClearCanvas(roomId: RoomId)
    | UndoAction(roomId: RoomId)
    | RedoAction(roomId: RoomId)

  /** What the server emits to clients. Relayed drawing events drop the room id. */
  datatype ServerEvent =
    | UserCount(count: nat)
    | UserLeft(userId: SocketId)
    | LoadDrawingData(commands: seq<DrawingCommand>)
    | CursorMoved(userId: SocketId, x: real, y: real)
    | DrawStarted(x: real, y: real, color: string, strokeWidth: real)
    | DrawMoved(x: real, y: real)
    | DrawEnded
    | CanvasCleared
    | UndoRelayed
    | RedoRelayed
}
