/**
 * The local undo/redo history of client/src/components/DrawingCanvas.js.
 *
 * The component keeps a list of canvas snapshots (`drawingHistory`, each a
 * `canvas.toDataURL()` string) and a cursor into it (`historyStep`). A save
 * drops everything after the cursor and appends; undo and redo move the
 * cursor by one when they can. React's two state setters are taken as one
 * sequential update; drawing on the canvas itself is not modelled.
 */
module DrawingCanvas {
  import opened Wrappers
  import RoomModel
  import opened Protocol

  /** A canvas snapshot, as `canvas.toDataURL()` returns it. */
  type Snapshot = string

  /** The snapshot list and the cursor. */
  datatype History = History(snapshots: seq<Snapshot>, step: int)

  /** The initial React state, before the mount effect saves the blank canvas. */
  function Unmounted(): History {
    History([], -1)
  }

  /** The cursor points at a snapshot: true from the first save on. */
  predicate InRange(h: History) {
    0 <= h.step < |h.snapshots|
  }

  /** `canUndo`, as the history-change effect reports it. */
  predicate CanUndo(h: History) {
    h.step > 0
  }

  /** `canRedo`, as the history-change effect reports it. */
  predicate CanRedo(h: History) {
    h.step < |h.snapshots| - 1
  }

  /** `a.slice(0, end)` in JavaScript: a negative end counts from the back, a large one is clamped. */
  function SliceTo<T>(a: seq<T>, end: int): (r: seq<T>)
    ensures 0 <= end <= |a| ==> r == a[..end]
  {
    if end < 0 then (if |a| + end <= 0 then [] else a[..|a| + end])
    else if end > |a| then a
    else a[..end]
  }

  /** `saveCanvasState`: keep the snapshots up to the cursor, append the new one, advance the cursor. */
  function Save(h: History, snap: Snapshot): History {
    History(SliceTo(h.snapshots, h.step + 1) + [snap], h.step + 1)
  }

  /** The cursor move of `performUndo`. */
  function Undo(h: History): History {
    if h.step > 0 then h.(step := h.step - 1) else h
  }

  /** The cursor move of `performRedo`. */
  function Redo(h: History): History {
    if h.step < |h.snapshots| - 1 then h.(step := h.step + 1) else h
  }

  /**
   * A save from a history whose cursor is in range (or from the initial empty
   * one) drops every snapshot after the cursor, appends the new one and
   * points the cursor at it, so nothing is left to redo.
   */
  lemma SaveTruncatesThenAppends(h: History, snap: Snapshot)
    requires InRange(h) || h == Unmounted()
    ensures var r := Save(h, snap);
      && r.snapshots == h.snapshots[..h.step + 1] + [snap]
      && r.step == |r.snapshots| - 1
      && r.snapshots[r.step] == snap
      && InRange(r)
      && !CanRedo(r)
      && (CanUndo(r) <==> h.step >= 0 && InRange(h))
  {
  }

  /**
   * Undo changes nothing at the first snapshot and otherwise moves the cursor
   * back by exactly one; the snapshot list is never touched.
   */
  lemma UndoMovesBack(h: History)
    requires InRange(h)
    ensures Undo(h).snapshots == h.snapshots
    ensures InRange(Undo(h))
    ensures h.step == 0 ==> Undo(h) == h
    ensures h.step > 0 ==> Undo(h).step == h.step - 1
  {
  }

  /**
   * Redo changes nothing at the last snapshot and otherwise moves the cursor
   * forward by exactly one; the snapshot list is never touched.
   */
  lemma RedoMovesForward(h: History)
    requires InRange(h)
    ensures Redo(h).snapshots == h.snapshots
    ensures InRange(Redo(h))
    ensures h.step == |h.snapshots| - 1 ==> Redo(h) == h
    ensures h.step < |h.snapshots| - 1 ==> Redo(h).step == h.step + 1
  {
  }

  /** The reported `canUndo` / `canRedo` flags say exactly whether undo / redo would do anything. */
  lemma FlagsPredictMoves(h: History)
    ensures CanUndo(h) <==> Undo(h) != h
    ensures CanRedo(h) <==> Redo(h) != h
  {
  }

  /** An undo that did something is reversed by a redo, and a redo that did something by an undo. */
  lemma UndoRedoInverse(h: History)
    requires InRange(h)
    ensures CanUndo(h) ==> CanRedo(Undo(h)) && Redo(Undo(h)) == h
    ensures CanRedo(h) ==> CanUndo(Redo(h)) && Undo(Redo(h)) == h
  {
  }

  /** What can happen to the history: a save, an undo, a redo. */
  datatype HistoryOp = SaveOp(snap: Snapshot) | UndoOp | RedoOp

  function ApplyOp(h: History, op: HistoryOp): History {
    match op
    case SaveOp(snap) => Save(h, snap)
    case UndoOp => Undo(h)
    case RedoOp => Redo(h)
  }

  /** The history after `ops`, in order. */
  function ApplyOps(h: History, ops: seq<HistoryOp>): History
    decreases |ops|
  {
    if ops == [] then h else ApplyOps(ApplyOp(h, ops[0]), ops[1..])
  }

  /** From the blank save on mount, the cursor stays on a snapshot across any saves, undos and redos. */
  lemma {:induction false} ReplayStaysInRange(h: History, ops: seq<HistoryOp>)
    requires InRange(h) || h == Unmounted()
    requires h == Unmounted() ==> ops != [] && ops[0].SaveOp?
    ensures InRange(ApplyOps(h, ops))
    decreases |ops|
  {
    if ops != [] {
      var next := ApplyOp(h, ops[0]);
      match ops[0] {
        case SaveOp(snap) => SaveTruncatesThenAppends(h, snap);
        case UndoOp => UndoMovesBack(h);
        case RedoOp => RedoMovesForward(h);
      }
      ReplayStaysInRange(next, ops[1..]);
    }
  }

  /** A pointer position on the canvas. */
  datatype Point = Point(x: real, y: real)

  /** The toolbar's drawing settings. */
  datatype Settings = Settings(color: string, strokeWidth: real)

  /**
   * The component's state. `hasSocket` says whether the `socket` prop is set
   * (the parent passes `null` until its own socket exists, so it can change
   * after mount); `sent` records what the component emits on it, in order.
   */
  class Canvas {
    var drawingHistory: seq<Snapshot>
    var historyStep: int
    var isDrawing: bool
    var currentPath: seq<Point>
    var hasSocket: bool
    const roomId: RoomModel.RoomId
    var sent: seq<ClientMessage>

    /** The history as a value. */
    function Current(): History
      reads this
    {
      History(drawingHistory, historyStep)
    }

    ghost predicate Valid()
      reads this
    {
      InRange(Current())
    }

    /** Mount: the initial state, then the mount effect saves the blank canvas. */
    constructor Mount(hasSocket: bool, roomId: RoomModel.RoomId, blank: Snapshot)
      ensures Valid()
      ensures this.hasSocket == hasSocket && this.roomId == roomId
      ensures Current() == Save(Unmounted(), blank) && drawingHistory == [blank] && historyStep == 0
      ensures !isDrawing && currentPath == [] && sent == []
    {
      this.hasSocket := hasSocket;
      this.roomId := roomId;
      drawingHistory, historyStep := [], -1;
      isDrawing, currentPath, sent := false, [], [];
      new;
      SaveCanvasState(blank);
    }

    /** A new `socket` prop from the parent: later handlers see it; the history and the stroke are untouched. */
    method ReceiveSocket(present: bool)
      modifies this`hasSocket
      ensures hasSocket == present
    {
      hasSocket := present;
    }

    /** `saveCanvasState` with the snapshot `snap` of the canvas as it is now. */
    method SaveCanvasState(snap: Snapshot)
      requires Valid() || Current() == Unmounted()
      modifies this`drawingHistory, this`historyStep
      ensures Valid()
      ensures Current() == Save(old(Current()), snap)
    {
      SaveTruncatesThenAppends(Current(), snap);
      var newHistory := SliceTo(drawingHistory, historyStep + 1);
      newHistory := newHistory + [snap];
      drawingHistory := newHistory;
      historyStep := historyStep + 1;
    }

    /**
     * `performUndo(shouldEmit)`: when there is something to undo, moves the
     * cursor back, returns the snapshot to restore, and emits "undo-action"
     * when asked to and a socket exists; otherwise does nothing.
     */
    method PerformUndo(shouldEmit: bool) returns (restored: Option<Snapshot>)
      requires Valid()
      modifies this`historyStep, this`sent
      ensures Valid()
      ensures Current() == Undo(old(Current()))
      ensures restored == if old(CanUndo(Current())) then Some(drawingHistory[historyStep]) else None
      ensures sent == old(sent) + if old(CanUndo(Current())) && shouldEmit && hasSocket then [UndoAction(roomId)] else []
    {
      UndoMovesBack(Current());
      restored := None;
      if historyStep > 0 {
        historyStep := historyStep - 1;
        restored := Some(drawingHistory[historyStep]);
        if shouldEmit && hasSocket {
          sent := sent + [UndoAction(roomId)];
        }
      }
    }

    /** `performRedo(shouldEmit)`, the mirror image of `PerformUndo`. */
    method PerformRedo(shouldEmit: bool) returns (restored: Option<Snapshot>)
      requires Valid()
      modifies this`historyStep, this`sent
      ensures Valid()
      ensures Current() == Redo(old(Current()))
      ensures restored == if old(CanRedo(Current())) then Some(drawingHistory[historyStep]) else None
      ensures sent == old(sent) + if old(CanRedo(Current())) && shouldEmit && hasSocket then [RedoAction(roomId)] else []
    {
      RedoMovesForward(Current());
      restored := None;
      if historyStep < |drawingHistory| - 1 {
        historyStep := historyStep + 1;
        restored := Some(drawingHistory[historyStep]);
        if shouldEmit && hasSocket {
          sent := sent + [RedoAction(roomId)];
        }
      }
    }

    /** A remote "draw-end": the stroke is finished on this canvas and saved. */
    method OnRemoteDrawEnd(snap: Snapshot)
      requires Valid()
      modifies this`drawingHistory, this`historyStep
      ensures Valid() && Current() == Save(old(Current()), snap)
    {
      SaveCanvasState(snap);
    }

    /** A "clear-canvas" from the server (also the echo of this client's own clear): the blank canvas is saved. */
    method OnRemoteClear(blank: Snapshot)
      requires Valid()
      modifies this`drawingHistory, this`historyStep
      ensures Valid() && Current() == Save(old(Current()), blank)
    {
      SaveCanvasState(blank);
    }

    /** A remote "undo-action": the same cursor move, and never an emit back. */
    method OnRemoteUndo() returns (restored: Option<Snapshot>)
      requires Valid()
      modifies this`historyStep, this`sent
      ensures Valid() && Current() == Undo(old(Current()))
      ensures sent == old(sent)
    {
      restored := PerformUndo(false);
    }

    /** A remote "redo-action": the same cursor move, and never an emit back. */
    method OnRemoteRedo() returns (restored: Option<Snapshot>)
      requires Valid()
      modifies this`historyStep, this`sent
      ensures Valid() && Current() == Redo(old(Current()))
      ensures sent == old(sent)
    {
      restored := PerformRedo(false);
    }

    /** `startDrawing`: with a socket, begins a path at `p` and emits "draw-start". */
    method StartDrawing(p: Point, settings: Settings)
      modifies this`isDrawing, this`currentPath, this`sent
      ensures hasSocket ==>
        && isDrawing && currentPath == [p]
        && sent == old(sent) + [DrawStart(roomId, p.x, p.y, settings.color, settings.strokeWidth)]
      ensures !hasSocket ==> isDrawing == old(isDrawing) && currentPath == old(currentPath) && sent == old(sent)
    {
      if !hasSocket {
        return;
      }
      isDrawing := true;
      currentPath := [p];
      sent := sent + [DrawStart(roomId, p.x, p.y, settings.color, settings.strokeWidth)];
    }

    /** `draw`: does nothing unless a stroke is in progress; otherwise extends the path and emits "draw-move". */
    method Draw(p: Point)
      modifies this`currentPath, this`sent
      ensures isDrawing && hasSocket ==> currentPath == old(currentPath) + [p] && sent == old(sent) + [DrawMove(roomId, p.x, p.y)]
      ensures !(isDrawing && hasSocket) ==> currentPath == old(currentPath) && sent == old(sent)
    {
      if !isDrawing || !hasSocket {
        return;
      }
      currentPath := currentPath + [p];
      sent := sent + [DrawMove(roomId, p.x, p.y)];
    }

    /**
     * `stopDrawing`: does nothing unless a stroke is in progress; otherwise
     * ends it, emits "draw-end" and saves exactly one snapshot.
     */
    method StopDrawing(snap: Snapshot)
      requires Valid()
      modifies this`isDrawing, this`currentPath, this`sent, this`drawingHistory, this`historyStep
      ensures Valid()
      ensures old(isDrawing) && hasSocket ==>
        && !isDrawing && currentPath == []
        && sent == old(sent) + [DrawEnd(roomId)]
        && Current() == Save(old(Current()), snap)
      ensures !(old(isDrawing) && hasSocket) ==>
        && isDrawing == old(isDrawing) && currentPath == old(currentPath)
        && sent == old(sent) && Current() == old(Current())
    {
      if !isDrawing || !hasSocket {
        return;
      }
      isDrawing := false;
      sent := sent + [DrawEnd(roomId)];
      currentPath := [];
      SaveCanvasState(snap);
    }
  }
}
