/**
 * The room screen of client/src/components/Whiteboard.js: the map of other
 * participants' cursors, the undo/redo keyboard shortcuts, the connection
 * status shown in the corner, and the guards on emitting this client's
 * cursor position.
 */
module Whiteboard {
  import RoomModel
  import opened Protocol
  import DrawingCanvas

  /** A remote participant's cursor position. */
  datatype Position = Position(x: real, y: real)

  /** The `cursors` state: the last position received from each participant. */
  type Cursors = map<RoomModel.SocketId, Position>

  /** The "cursor-move" reducer: only `userId`'s entry is set to `(x, y)`. */
  function MoveCursor(cursors: Cursors, userId: RoomModel.SocketId, x: real, y: real): (r: Cursors)
    ensures userId in r && r[userId] == Position(x, y)
    ensures forall u :: u != userId ==> (u in r <==> u in cursors)
    ensures forall u :: u in cursors && u != userId ==> r[u] == cursors[u]
  {
    cursors[userId := Position(x, y)]
  }

  /** The "user-left" reducer: exactly `userId`'s entry is removed. */
  function RemoveCursor(cursors: Cursors, userId: RoomModel.SocketId): (r: Cursors)
    ensures userId !in r
    ensures forall u :: u != userId ==> (u in r <==> u in cursors)
    ensures forall u :: u in r ==> r[u] == cursors[u]
  {
    cursors - {userId}
  }

  /** A participant that leaves takes its cursor with it, wherever it last moved. */
  lemma LeaveForgetsMove(cursors: Cursors, userId: RoomModel.SocketId, x: real, y: real)
    ensures RemoveCursor(MoveCursor(cursors, userId, x, y), userId) == RemoveCursor(cursors, userId)
  {
  }

  /** The fields of a keyboard event that `handleKeyDown` reads. */
  datatype KeyEvent = KeyEvent(key: string, ctrlKey: bool, metaKey: bool, shiftKey: bool)

  /** What a key press asks for. */
  datatype Shortcut = UndoShortcut | RedoShortcut | NoShortcut

  /**
   * `handleKeyDown`'s classification: Ctrl/Meta+z without Shift is undo;
   * Ctrl/Meta+y, or Ctrl/Meta+Shift+z, is redo; nothing else is a shortcut.
   */
  function ClassifyKey(e: KeyEvent): (r: Shortcut)
    ensures r == UndoShortcut <==> (e.ctrlKey || e.metaKey) && e.key == "z" && !e.shiftKey
    ensures r == RedoShortcut <==> (e.ctrlKey || e.metaKey) && (e.key == "y" || (e.key == "z" && e.shiftKey))
    ensures !(e.ctrlKey || e.metaKey) ==> r == NoShortcut
  {
    if e.ctrlKey || e.metaKey then
      if e.key == "z" && !e.shiftKey then UndoShortcut
      else if e.key == "y" || (e.key == "z" && e.shiftKey) then RedoShortcut
      else NoShortcut
    else
      NoShortcut
  }

  /** The connection events the component listens to. */
  datatype ConnectionEvent = Connect | Disconnect | ConnectError | Reconnect | Reconnecting

  const StatusConnected := "connected"
  const StatusConnecting := "connecting"
  const StatusDisconnected := "disconnected"

  /** The status strings the component ever sets. */
  predicate KnownStatus(status: string) {
    status == StatusConnected || status == StatusConnecting || status == StatusDisconnected
  }

  /** The status each connection event sets, whatever the status was. */
  function NextStatus(ev: ConnectionEvent): (status: string)
    ensures KnownStatus(status)
    ensures status == StatusConnected <==> ev == Connect || ev == Reconnect
    ensures status == StatusDisconnected <==> ev == Disconnect || ev == ConnectError
  {
    match ev
    case Connect => StatusConnected
    case Reconnect => StatusConnected
    case Disconnect => StatusDisconnected
    case ConnectError => StatusDisconnected
    case Reconnecting => StatusConnecting
  }

  const UnknownText := "\U{26AA} Unknown"

  /** `getConnectionStatusText`: one text per known status, the Unknown text for anything else. */
  function StatusText(status: string): (t: string)
    ensures t == UnknownText <==> !KnownStatus(status)
  {
    if status == StatusConnected then "\U{1F7E2} Connected"
    else if status == StatusConnecting then "\U{1F7E1} Connecting..."
    else if status == StatusDisconnected then "\U{1F534} Disconnected"
    else UnknownText
  }

  /** The status after `events`, handled in order from `status`. */
  function StatusAfter(status: string, events: seq<ConnectionEvent>): string
    decreases |events|
  {
    if events == [] then status else StatusAfter(NextStatus(events[0]), events[1..])
  }

  /**
   * From the initial "connecting", whatever connection events arrive, the
   * status is always one the text mapping knows, so the Unknown text is never
   * shown; and it is "connected" exactly when the latest event was a connect
   * or a reconnect.
   */
  lemma {:induction false} StatusNeverUnknown(status: string, events: seq<ConnectionEvent>)
    requires status == StatusConnecting || events != []
    ensures StatusText(StatusAfter(status, events)) != UnknownText
    ensures StatusAfter(status, events) == StatusConnected <==>
      events != [] && (events[|events| - 1] == Connect || events[|events| - 1] == Reconnect)
    decreases |events|
  {
    if events != [] {
      var next := NextStatus(events[0]);
      if |events| == 1 {
        assert StatusAfter(next, events[1..]) == next;
      } else {
        StatusNeverUnknown(next, events[1..]);
        assert events[1..][|events[1..]| - 1] == events[|events| - 1];
      }
    }
  }

  /**
   * The component's state. `hasSocket` says whether the socket state is set;
   * `sent` records what the component emits on it, in order; `disconnected`
   * says whether this component has closed the socket, and `leftRoom` whether
   * it has handed control back to the parent to leave the room screen.
   */
  class Session {
    const roomId: RoomModel.RoomId
    var hasSocket: bool
    var userCount: int
    var cursors: Cursors
    var connectionStatus: string
    var sent: seq<ClientMessage>
    var disconnected: bool
    var leftRoom: bool

    ghost predicate Valid()
      reads this
    {
      KnownStatus(connectionStatus)
    }

    /** Mount: initial state, then the connection effect creates the socket and joins the room. */
    constructor Mount(roomId: RoomModel.RoomId)
      ensures Valid()
      ensures this.roomId == roomId && hasSocket && userCount == 1 && cursors == map[]
      ensures connectionStatus == StatusConnecting && StatusText(connectionStatus) != UnknownText
      ensures sent == [JoinRoom(roomId)] && !disconnected && !leftRoom
    {
      this.roomId := roomId;
      userCount := 1;
      cursors := map[];
      connectionStatus := StatusConnecting;
      hasSocket := true;
      sent := [JoinRoom(roomId)];
      disconnected, leftRoom := false, false;
    }

    /** A connection event handler. */
    method OnConnectionEvent(ev: ConnectionEvent)
      modifies this`connectionStatus
      ensures Valid() && connectionStatus == NextStatus(ev)
    {
      match ev
      case Connect => connectionStatus := StatusConnected;
      case Disconnect => connectionStatus := StatusDisconnected;
      case ConnectError => connectionStatus := StatusDisconnected;
      case Reconnect => connectionStatus := StatusConnected;
      case Reconnecting => connectionStatus := StatusConnecting;
    }

    /** "user-count" from the server. */
    method OnUserCount(count: nat)
      modifies this`userCount
      ensures userCount == count
    {
      userCount := count;
    }

    /** "cursor-move" from the server. */
    method OnCursorMove(userId: RoomModel.SocketId, x: real, y: real)
      modifies this`cursors
      ensures cursors == MoveCursor(old(cursors), userId, x, y)
    {
      cursors := cursors[userId := Position(x, y)];
    }

    /** "user-left" from the server. */
    method OnUserLeft(userId: RoomModel.SocketId)
      modifies this`cursors
      ensures cursors == RemoveCursor(old(cursors), userId)
    {
      cursors := cursors - {userId};
    }

    /** `handleMouseMove`: the position is emitted only with a socket and a "connected" status. */
    method HandleMouseMove(x: real, y: real)
      modifies this`sent
      ensures sent == old(sent) + if hasSocket && connectionStatus == StatusConnected then [CursorMove(roomId, x, y)] else []
    {
      if hasSocket && connectionStatus == StatusConnected {
        sent := sent + [CursorMove(roomId, x, y)];
      }
    }

    /** `handleTouchMove`: as for the mouse, and only while exactly one finger touches. */
    method HandleTouchMove(touches: seq<Position>)
      modifies this`sent
      ensures sent == old(sent) +
        if hasSocket && connectionStatus == StatusConnected && |touches| == 1
        then [CursorMove(roomId, touches[0].x, touches[0].y)] else []
    {
      if hasSocket && connectionStatus == StatusConnected && |touches| == 1 {
        sent := sent + [CursorMove(roomId, touches[0].x, touches[0].y)];
      }
    }

    /**
     * `handleKeyDown`: an undo or redo shortcut calls the canvas's exposed
     * undo or redo (when a canvas is mounted) with emitting on, and has its
     * default prevented; any other key does nothing.
     */
    method HandleKeyDown(e: KeyEvent, canvas: DrawingCanvas.Canvas?) returns (preventDefault: bool)
      requires canvas != null ==> canvas.Valid()
      modifies canvas
      ensures preventDefault <==> ClassifyKey(e) != NoShortcut
      ensures canvas != null ==> canvas.Valid()
      ensures canvas != null && ClassifyKey(e) == UndoShortcut ==> canvas.Current() == DrawingCanvas.Undo(old(canvas.Current()))
      ensures canvas != null && ClassifyKey(e) == RedoShortcut ==> canvas.Current() == DrawingCanvas.Redo(old(canvas.Current()))
      ensures canvas != null && ClassifyKey(e) == NoShortcut ==> canvas.Current() == old(canvas.Current()) && canvas.sent == old(canvas.sent)
      ensures canvas != null && ClassifyKey(e) == UndoShortcut ==>
        canvas.sent == old(canvas.sent) + if old(DrawingCanvas.CanUndo(canvas.Current())) && canvas.hasSocket then [UndoAction(canvas.roomId)] else []
      ensures canvas != null && ClassifyKey(e) == RedoShortcut ==>
        canvas.sent == old(canvas.sent) + if old(DrawingCanvas.CanRedo(canvas.Current())) && canvas.hasSocket then [RedoAction(canvas.roomId)] else []
      ensures canvas != null ==>
        && canvas.hasSocket == old(canvas.hasSocket)
        && canvas.isDrawing == old(canvas.isDrawing)
        && canvas.currentPath == old(canvas.currentPath)
    {
      preventDefault := false;
      if e.ctrlKey || e.metaKey {
        if e.key == "z" && !e.shiftKey {
          preventDefault := true;
          if canvas != null {
            var _ := canvas.PerformUndo(true);
          }
        } else if e.key == "y" || (e.key == "z" && e.shiftKey) {
          preventDefault := true;
          if canvas != null {
            var _ := canvas.PerformRedo(true);
          }
        }
      }
    }

    /**
     * `handleLeave`: with a socket, emits "leave-room" for this room and
     * closes the socket; with or without one, hands control back to the
     * parent, which leaves the room screen.
     */
    method HandleLeave()
      modifies this`sent, this`disconnected, this`leftRoom
      ensures sent == old(sent) + if hasSocket then [LeaveRoom(roomId)] else []
      ensures disconnected == (old(disconnected) || hasSocket)
      ensures leftRoom
    {
      if hasSocket {
        sent := sent + [LeaveRoom(roomId)];
        disconnected := true;
      }
      leftRoom := true;
    }
  }
}
