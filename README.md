# Collaborative whiteboard — a Dafny model of its core

The whiteboard lets people draw together in rooms identified by short codes.
An Express server stores each room in MongoDB: its upper-case id, its
creation and last-activity times, and a log of drawing commands
(`stroke`, `clear`, `undo`, `redo`). A Socket.IO relay sends drawing events,
undos and redos to the other sockets in a room and appends each to the
room's log. It sends cursor moves to the others without storing them. It
sends a clear to everyone in the room, the sender included, and replaces
the log with that one clear command. It also tracks who is in which room so
that it can broadcast user counts. On the client, a canvas component keeps an
undo/redo history of snapshots, and a whiteboard component tracks the
connection status, the remote cursors and the keyboard shortcuts.

This project models that core and proves what it promises:

- `wrappers.dfy`: `Option`.
- `text.dfy`: the JavaScript string operations the code relies on. These
  are `includes` (`Contains`) and `toUpperCase` (`ToUpper`, ASCII letters
  only).
- `room_model.dfy`: the Mongoose `Room` and `DrawingCommand` schemas,
  the defaults of a new room, the pre-save hook, and the room collection as
  a mutable store (`RoomCollection`).
- `protocol.dfy`: the client-to-server and server-to-client Socket.IO
  messages.
- `socket_handler.dfy`: the relay. Each handler is a pure step function from
  the old state to the new state and the list of emits it makes. The state
  is the Socket.IO channels, the handler's `activeRooms` and `userRooms` maps
  and the room store. Each emit records its audience and the sockets it
  reaches at the time it is sent. Lemmas state the handlers' promises.
- `socket_relay.dfy`: the class `Relay`, which holds the same state in
  mutable fields and runs each handler in place. Each of its methods is
  proved to leave exactly the state and emits of the matching step function.
- `rooms_route.dfy`: `POST /api/rooms/join` and `GET /api/rooms/:roomId`.
- `drawing_canvas.dfy`: the canvas's snapshot history as a value
  (`History`) with save, undo and redo. The class `Canvas` holds the
  component's state and its event handlers.
- `whiteboard.dfy`: the whiteboard component as the class `Session`,
  together with its pure parts: cursors, shortcut classification and
  connection-status text.
- `validate_env.dfy`: the start-up environment check.
- `server_config.dfy`: the CORS origin decision and the hourly cleanup of
  inactive rooms.

Modelling conventions:

- Times are integers in milliseconds. Coordinates and stroke widths are
  reals.
- A canvas snapshot (a data URL) is a string.
- Environment variables are a `map<string, string>`.
- JavaScript truthiness is written out explicitly: an empty string counts
  as absent in `if (previousRoom)`, `if (roomId)`, `!process.env[name]`,
  `!roomId` and `.filter(Boolean)`.
- The outcome of a socket handler's database call is an input, `dbOk`
  (`found` in the join step). For a drawing, clear, undo or redo handler it
  says whether the write succeeded: when it failed, the error was logged and
  the store is unchanged. For "join-room" it says whether the room lookup
  resolved: when it rejected, the error was logged and no stored log is
  sent, but the membership changes already made stay.

Properties of the code:

- The relay's two maps agree in one direction only. Every socket with a
  recorded room is counted in that room's set, and every handler keeps this
  true (`SocketHandler.RunKeepsConsistent`).
- The converse does not hold. A "leave-room" that names a room other than
  the socket's own clears the socket's record but leaves it counted in the
  room it joined. A later disconnect does not remove it either
  (`SocketHandler.StaleMemberAfterMismatchedLeave`). The client always
  sends its own room, so this shows up only with a misbehaving client.

## Model

| member | source | states |
|---|---|---|
| Text.Contains | server/index.js:24 | `includes` is true exactly when the needle occurs at some index of the string |
| Text.ToUpperShape | server/routes/rooms.js:16 | upper-casing keeps the length, maps each character through the letter map, and yields an all-upper-case string |
| Text.ToUpperIdempotent | server/models/Room.js:24 | an already upper-case id is unchanged by upper-casing, and upper-casing twice is upper-casing once |
| RoomModel.ParseType | server/models/Room.js:4-8 | a command type name is accepted exactly when it is one of the four enum values, and it parses back to its own name |
| RoomModel.TypeNameRoundTrip | server/models/Room.js:4-8 | every command type survives being written as its name and parsed back |
| RoomModel.StrokeCommand | server/socket/socketHandler.js:62-72 | a stroke command is well formed, has kind `stroke`, carries the given start/move/end action and the sender's id, and is timestamped now |
| RoomModel.MarkerCommand | server/socket/socketHandler.js:146-152 | a clear/undo/redo command is well formed, has the given kind and the sender's id, and carries the current time |
| RoomModel.NewRoom | server/models/Room.js:19-44 | a new room has the upper-cased id of the same length, an empty log, zero strokes, no clear time, and creation and activity times equal to now |
| RoomModel.PreSave | server/models/Room.js:47-50 | the save hook sets `lastActivity` to now and changes no other field |
| SocketHandler.Deliver | server/socket/socketHandler.js:19-20 | an emit through `socket.to` never reaches its sender, and a room emit reaches only members of that room's channel |
| SocketHandler.Send | server/socket/socketHandler.js:34-35 | an emit's recipients are fixed when it is sent, from the channels at that moment; `Deliver`'s contract and `DisconnectLeaves` state what that implies |
| SocketHandler.LeaveAllChannels | server/socket/socketHandler.js:224-230 | a closing socket is taken out of every channel and no channel is created or dropped |
| SocketHandler.LeavePrevious | server/socket/socketHandler.js:12-22 | leaving the recorded room on a new join; its effects are stated by `LeavePreviousShape`, `JoinLeavesPrevious` and `LeavePreviousCount` |
| SocketHandler.Admit | server/socket/socketHandler.js:24-35 | admitting the socket to the room; its effects are stated by `JoinAdmits` and `AdmitCount` |
| SocketHandler.Replay | server/socket/socketHandler.js:37-46 | the stored log sent to the joiner when the lookup resolves; stated by `ReplayOnJoin` |
| SocketHandler.JoinStep | server/socket/socketHandler.js:10-47 | the whole "join-room" handler: leave, admit, replay, in that order; stated by `JoinAdmits`, `JoinLeavesPrevious`, `ReplayOnJoin`, `JoinKeepsConsistent` and `JoinCountIsCurrent` |
| SocketHandler.UserLeaveStep | server/socket/socketHandler.js:233-247 | `handleUserLeave`; stated by `UserLeaveRemoves`, `UserLeaveKeepsConsistent` and `UserLeaveCountIsCurrent` |
| SocketHandler.DisconnectStep | server/socket/socketHandler.js:224-230 | the "disconnect" handler after the socket has left every channel; stated by `DisconnectWithoutRoom` and `DisconnectLeaves` |
| SocketHandler.AppendCommand | server/socket/socketHandler.js:79-85 | the `$push` update of an existing document only; stated by `RelayAppendsOne` and `ApplyKeepsDocuments` |
| SocketHandler.ReplaceLog | server/socket/socketHandler.js:158-168 | the clear handler's update of an existing document only; stated by `ClearReplacesLog` and `ApplyKeepsDocuments` |
| SocketHandler.Persist | server/socket/socketHandler.js:78-88 | a drawing handler's write, which leaves the store as it was when it fails; stated by `RelayAppendsOne` |
| SocketHandler.Handle | server/socket/socketHandler.js:10-222 | every message handler's state change and emits; stated by `RelayLeavesRegistry`, `RelayAppendsOne`, `ClearReplacesLog`, `CursorNotLogged` and `UserCountIsCurrent` |
| SocketHandler.Apply | server/socket/socketHandler.js:10-230 | a message or a disconnect; stated by `ApplyKeepsConsistent`, `ApplyKeepsDocuments` and `NoSelfUserLeft` |
| SocketHandler.Run | server/socket/socketHandler.js:6-231 | the handlers run one at a time, in arrival order; stated by `RunKeepsConsistent` and `StaleMemberAfterMismatchedLeave` |
| SocketHandler.JoinAdmits | server/socket/socketHandler.js:24-35 | after "join-room" the socket is recorded in the room, is in its channel and its set (which gains exactly that socket), and everyone in the channel gets the set's size |
| SocketHandler.LeavePreviousShape | server/socket/socketHandler.js:13-21 | leaving the previous room removes the socket from that room's set only, and touches no other set |
| SocketHandler.JoinLeavesPrevious | server/socket/socketHandler.js:12-22 | joining a different room first takes the socket out of its previous room's channel and set, sends the new count there, and tells the others that it left |
| SocketHandler.ReplayOnJoin | server/socket/socketHandler.js:37-41 | the joiner alone receives the stored log, in stored order and as the handler's last emit, exactly when the lookup resolves and the room has a document with a non-empty log; a rejected lookup keeps the membership changes made before it |
| SocketHandler.UserLeaveRemoves | server/socket/socketHandler.js:233-247 | leaving removes the socket's record (whichever room it names) and its entry in the named room's set, touching no other set; an emptied set is deleted, otherwise everyone in the channel gets the new count; the others are told the socket left whenever the room had a set, and nothing is sent otherwise |
| SocketHandler.DisconnectWithoutRoom | server/socket/socketHandler.js:224-230 | a disconnect from a socket with no recorded room changes neither map and emits nothing |
| SocketHandler.DisconnectLeaves | server/socket/socketHandler.js:224-230 | a disconnect from a socket with a recorded room removes it from that room's set and its record, and none of the resulting emits reaches the closed socket |
| SocketHandler.RelayLeavesRegistry | server/socket/socketHandler.js:53-222 | the cursor, drawing, clear, undo and redo handlers leave the membership state alone and make exactly one emit |
| SocketHandler.NoSelfUserLeft | server/socket/socketHandler.js:237 | no handler ever delivers "user-left" to the socket that left |
| SocketHandler.ApplyKeepsConsistent | server/socket/socketHandler.js:10-247 | every handler keeps each recorded socket counted in its recorded room's set |
| SocketHandler.JoinKeepsConsistent | server/socket/socketHandler.js:10-47 | "join-room" keeps each recorded socket counted in its recorded room's set |
| SocketHandler.UserLeaveKeepsConsistent | server/socket/socketHandler.js:233-247 | leaving keeps each recorded socket counted in its recorded room's set |
| SocketHandler.RunKeepsConsistent | server/socket/socketHandler.js:3-4 | any sequence of messages and disconnects keeps the two maps in agreement |
| SocketHandler.UserCountIsCurrent | server/socket/socketHandler.js:34-35 | after any handler, the last user count sent to a room equals the size of that room's set in the resulting state |
| SocketHandler.LeavePreviousCount | server/socket/socketHandler.js:16-19 | the count sent on leaving the previous room is that room's new size |
| SocketHandler.AdmitCount | server/socket/socketHandler.js:31-35 | the count sent on admission is the joined room's new size |
| SocketHandler.JoinCountIsCurrent | server/socket/socketHandler.js:10-41 | every count the join handler sends last to a room is that room's size once the handler is done |
| SocketHandler.UserLeaveCountIsCurrent | server/socket/socketHandler.js:239-243 | the count the leave handler sends is the room's remaining size |
| SocketHandler.StaleMemberAfterMismatchedLeave | server/socket/socketHandler.js:233-247 | join ROOM1, leave ROOM2, then disconnect leaves the socket counted in ROOM1 with no recorded room |
| SocketHandler.RelayAppendsOne | server/socket/socketHandler.js:61-222 | drawing, undo and redo events reach the other sockets in the room, never the sender; a successful write appends exactly one command of the matching kind, action, sender and time to the end of the log; no document is created and other rooms are untouched |
| SocketHandler.ClearReplacesLog | server/socket/socketHandler.js:145-169 | "clear-canvas" reaches everyone in the room, the sender included; a successful write replaces the log with exactly one clear command by the sender |
| SocketHandler.CursorNotLogged | server/socket/socketHandler.js:53-59 | a cursor move changes no state and reaches the others in the room, tagged with the sender's id |
| SocketHandler.ApplyKeepsDocuments | server/socket/socketHandler.js:79-85 | no handler creates or deletes a room document (updates are not upserts), and documents stay keyed by their own id |
| SocketRelay.Relay.constructor | server/socket/socketHandler.js:3-4 | the relay starts with no channels, no rooms and nothing sent |
| SocketRelay.Relay.OnJoinRoom | server/socket/socketHandler.js:10-47 | the new membership state and the emits are those of the join step for the given lookup outcome, and the membership agreement is kept |
| SocketRelay.Relay.LeavePreviousRoom | server/socket/socketHandler.js:12-22 | in place, the state and emits of leaving the previous room |
| SocketRelay.Relay.AdmitTo | server/socket/socketHandler.js:24-35 | in place, the state and emits of admission to the room |
| SocketRelay.Relay.SendStoredLog | server/socket/socketHandler.js:37-41 | in place, the joiner alone is sent the stored log when the lookup resolved and the log is not empty |
| SocketRelay.Relay.HandleUserLeave | server/socket/socketHandler.js:233-247 | in place, the leave step; the socket's record is gone and the agreement is kept |
| SocketRelay.Relay.OnLeaveRoom | server/socket/socketHandler.js:49-51 | "leave-room" is the leave step for the named room |
| SocketRelay.Relay.OnDisconnect | server/socket/socketHandler.js:224-230 | "disconnect" is the disconnect step |
| SocketRelay.Relay.OnCursorMove | server/socket/socketHandler.js:53-59 | appends the cursor relay to the other sockets in the room, tagged with the sender's id, and changes nothing else |
| SocketRelay.Relay.PushCommand | server/socket/socketHandler.js:79-85 | the update appends the command and refreshes `lastActivity` of an existing document only |
| SocketRelay.Relay.OnDrawStart | server/socket/socketHandler.js:61-89 | the new store and the emits are those of the "draw-start" step |
| SocketRelay.Relay.OnDrawMove | server/socket/socketHandler.js:91-117 | the new store and the emits are those of the "draw-move" step |
| SocketRelay.Relay.OnDrawEnd | server/socket/socketHandler.js:119-143 | the new store and the emits are those of the "draw-end" step |
| SocketRelay.Relay.OnClearCanvas | server/socket/socketHandler.js:145-169 | the new store and the emits are those of the "clear-canvas" step |
| SocketRelay.Relay.OnUndoAction | server/socket/socketHandler.js:172-196 | the new store and the emits are those of the "undo-action" step |
| SocketRelay.Relay.OnRedoAction | server/socket/socketHandler.js:198-222 | the new store and the emits are those of the "redo-action" step |
| RoomsRoute.JoinRoomId | server/routes/rooms.js:10-16 | an id is accepted exactly when present and 4 to 8 characters long, and it is then upper-cased, keeping its length |
| RoomsRoute.GetRoom | server/routes/rooms.js:38-53 | 404 exactly when no room is stored under the upper-cased id; otherwise the stored room's id, times and log |
| RoomsRoute.GetRoomFindsUpperCased | server/routes/rooms.js:41 | ids that differ only in letter case get the same answer, and a found room's id is the upper-cased request |
| RoomsRoute.PostJoin | server/routes/rooms.js:6-35 | a bad id gets 400 and the store is unchanged; otherwise the room is created (a new room) or touched (only `lastActivity` changes), the answer carries its id and log, and a later GET finds it |
| DrawingCanvas.SliceTo | client/src/components/DrawingCanvas.js:123 | for an end within the array, `slice(0, end)` is exactly the first `end` elements |
| DrawingCanvas.Save | client/src/components/DrawingCanvas.js:118-129 | the history after `saveCanvasState`; stated by `SaveTruncatesThenAppends` and `ReplayStaysInRange` |
| DrawingCanvas.Undo | client/src/components/DrawingCanvas.js:145-147 | the cursor move of `performUndo`; stated by `UndoMovesBack`, `FlagsPredictMoves` and `UndoRedoInverse` |
| DrawingCanvas.Redo | client/src/components/DrawingCanvas.js:164-166 | the cursor move of `performRedo`; stated by `RedoMovesForward`, `FlagsPredictMoves` and `UndoRedoInverse` |
| DrawingCanvas.CanUndo | client/src/components/DrawingCanvas.js:56 | the `canUndo` flag; `FlagsPredictMoves` states that it holds exactly when undo would change the history |
| DrawingCanvas.CanRedo | client/src/components/DrawingCanvas.js:57 | the `canRedo` flag; `FlagsPredictMoves` states that it holds exactly when redo would change the history |
| DrawingCanvas.SaveTruncatesThenAppends | client/src/components/DrawingCanvas.js:118-129 | saving drops every snapshot after the cursor, appends the new one, moves the cursor onto it and leaves nothing to redo |
| DrawingCanvas.UndoMovesBack | client/src/components/DrawingCanvas.js:145-147 | undo keeps the snapshots, stays in range, does nothing at the first snapshot and otherwise steps back by one |
| DrawingCanvas.RedoMovesForward | client/src/components/DrawingCanvas.js:164-166 | redo keeps the snapshots, stays in range, does nothing at the last snapshot and otherwise steps forward by one |
| DrawingCanvas.FlagsPredictMoves | client/src/components/DrawingCanvas.js:56-57 | the reported `canUndo`/`canRedo` flags hold exactly when undo/redo would change the history |
| DrawingCanvas.UndoRedoInverse | client/src/components/DrawingCanvas.js:145-181 | an undo that did something is reversed by a redo, and the other way round |
| DrawingCanvas.ReplayStaysInRange | client/src/components/DrawingCanvas.js:17-18 | after the mount save, any sequence of saves, undos and redos keeps the cursor on a stored snapshot |
| DrawingCanvas.Canvas.Mount | client/src/components/DrawingCanvas.js:13-41 | mounting saves the blank canvas: one snapshot, cursor 0, not drawing, nothing sent |
| DrawingCanvas.Canvas.ReceiveSocket | client/src/components/Whiteboard.js:143 | the parent's socket state becomes the canvas's `socket` prop, which the later handlers test; the history is untouched |
| DrawingCanvas.Canvas.SaveCanvasState | client/src/components/DrawingCanvas.js:118-129 | in place, the history becomes the save of the current one |
| DrawingCanvas.Canvas.PerformUndo | client/src/components/DrawingCanvas.js:145-162 | in place, the history becomes its undo; the snapshot to restore is returned, and "undo-action" is emitted exactly when something was undone, emitting was asked for and a socket exists |
| DrawingCanvas.Canvas.PerformRedo | client/src/components/DrawingCanvas.js:164-181 | in place, the history becomes its redo, with the same return and emit rules |
| DrawingCanvas.Canvas.OnRemoteDrawEnd | client/src/components/DrawingCanvas.js:84-90 | a remote stroke end saves one snapshot |
| DrawingCanvas.Canvas.OnRemoteClear | client/src/components/DrawingCanvas.js:92-98 | a clear saves the blank snapshot |
| DrawingCanvas.Canvas.OnRemoteUndo | client/src/components/DrawingCanvas.js:100-102 | a remote undo moves the cursor back and never emits |
| DrawingCanvas.Canvas.OnRemoteRedo | client/src/components/DrawingCanvas.js:104-106 | a remote redo moves the cursor forward and never emits |
| DrawingCanvas.Canvas.StartDrawing | client/src/components/DrawingCanvas.js:213-239 | with a socket, starts a one-point path and emits "draw-start" with the settings; without one, does nothing |
| DrawingCanvas.Canvas.Draw | client/src/components/DrawingCanvas.js:241-255 | while drawing with a socket, extends the path and emits "draw-move"; otherwise does nothing |
| DrawingCanvas.Canvas.StopDrawing | client/src/components/DrawingCanvas.js:257-272 | while drawing with a socket, ends the stroke, emits "draw-end" and saves exactly one snapshot; otherwise does nothing |
| Whiteboard.MoveCursor | client/src/components/Whiteboard.js:180-185 | the mover's cursor is set to the new position and every other cursor is kept |
| Whiteboard.RemoveCursor | client/src/components/Whiteboard.js:187-192 | the leaver's cursor is gone and every other cursor is kept |
| Whiteboard.LeaveForgetsMove | client/src/components/Whiteboard.js:180-192 | a move followed by that user's leave is the same as the leave alone |
| Whiteboard.ClassifyKey | client/src/components/Whiteboard.js:205-218 | Ctrl/Cmd+Z without Shift is undo; Ctrl/Cmd+Y or Ctrl/Cmd+Shift+Z is redo; nothing without Ctrl/Cmd |
| Whiteboard.NextStatus | client/src/components/Whiteboard.js:146-169 | every connection event leads to a known status: connected exactly after connect or reconnect, disconnected exactly after a disconnect or a connection error |
| Whiteboard.StatusText | client/src/components/Whiteboard.js:259-270 | the "Unknown" label is shown exactly for a status that is not one of the three known ones |
| Whiteboard.StatusNeverUnknown | client/src/components/Whiteboard.js:128-169 | from the initial status, every sequence of connection events keeps a known status, and it is "connected" exactly when the last event was a connect or reconnect |
| Whiteboard.StatusAfter | client/src/components/Whiteboard.js:146-169 | the status after a sequence of connection events; stated by `StatusNeverUnknown` |
| Whiteboard.Session.Mount | client/src/components/Whiteboard.js:124-172 | the initial state has one user, no cursors and the "connecting" status, the only thing sent is "join-room" for this room, and the socket is neither closed nor left |
| Whiteboard.Session.OnConnectionEvent | client/src/components/Whiteboard.js:146-169 | the status becomes the event's status and stays known |
| Whiteboard.Session.OnUserCount | client/src/components/Whiteboard.js:175-178 | the shown user count becomes the server's count |
| Whiteboard.Session.OnCursorMove | client/src/components/Whiteboard.js:180-185 | the cursors become the move of the old cursors |
| Whiteboard.Session.OnUserLeft | client/src/components/Whiteboard.js:187-192 | the cursors lose the leaver's cursor |
| Whiteboard.Session.HandleMouseMove | client/src/components/Whiteboard.js:225-232 | "cursor-move" is emitted exactly when there is a socket and the status is connected |
| Whiteboard.Session.HandleTouchMove | client/src/components/Whiteboard.js:234-241 | as for the mouse, and only while exactly one finger touches, using that touch's position |
| Whiteboard.Session.HandleKeyDown | client/src/components/Whiteboard.js:205-219 | the default is prevented exactly for the two shortcuts, which undo or redo the mounted canvas with emitting on, so the canvas emits "undo-action" or "redo-action" exactly when the move did something and it has a socket; the stroke in progress is untouched, and other keys leave the canvas alone |
| Whiteboard.Session.HandleLeave | client/src/components/Whiteboard.js:243-249 | with a socket, "leave-room" for this room is emitted and the socket is closed; with or without one, the parent is told to leave the room screen |
| ValidateEnv.MissingIn | server/utils/validateEnv.js:5-9 | the required names that are unset or empty, in order; stated by `MissingInMembers` |
| ValidateEnv.MissingInMembers | server/utils/validateEnv.js:5-9 | the missing list holds exactly the required names that are unset or empty |
| ValidateEnv.MissingVars | server/utils/validateEnv.js:2-9 | the loop collects, in order, exactly the required names that are unset or empty |
| ValidateEnv.MongoScheme | server/utils/validateEnv.js:24 | the scheme test; `ValidateEnvironment` states the decision it feeds |
| ValidateEnv.ValidateEnvironment | server/utils/validateEnv.js:1-31 | the environment is accepted exactly when `MONGODB_URI` is set, non-empty, and starts with `mongodb://` or `mongodb+srv://` |
| ServerConfig.EnvGet | server/index.js:20 | `process.env[name]`, undefined when unset; `AllowedOrigins` states what the allowlist does with it |
| ServerConfig.FilterTruthy | server/index.js:20 | the filter keeps exactly the present, non-empty values |
| ServerConfig.AllowedOrigins | server/index.js:20 | the allowlist is exactly the two local defaults plus `CLIENT_URL` when it is set and non-empty |
| ServerConfig.CorsAllows | server/index.js:16-35 | a request without an Origin (or with an empty one) is allowed; in development any origin mentioning "localhost" or "127.0.0.1" is allowed; otherwise exactly the allowlist is allowed |
| ServerConfig.ProductionRefusesOtherLocalPorts | server/index.js:22-34 | outside development and without `CLIENT_URL`, another localhost port is refused and the default one is allowed |
| ServerConfig.IsStale | server/index.js:142-143 | the `$lt` filter of the cleanup; `Cleanup` and `CutoffIsStrict` state which rooms it deletes |
| ServerConfig.Cleanup | server/index.js:142-143 | exactly the rooms active within the last 24 hours survive, unchanged |
| ServerConfig.CutoffIsStrict | server/index.js:142-143 | a cleanup keeps a room last active exactly one day ago and deletes one a millisecond older |
| ServerConfig.CleanupIdempotent | server/index.js:143 | a second cleanup at the same time deletes nothing more |

## Left out

- Drawing on the canvas is not modelled: 2D-context calls, image loading,
  `toDataURL` and resize handling. A snapshot is an opaque string that the
  caller supplies, and remote "draw-start" and "draw-move" only render, so
  they have no model.
- Asynchrony is not modelled. This covers `await` interleavings between
  handlers, React's batched and functional state updates, and stale
  closures over `historyStep`. Each handler runs to completion on the
  state it sees.
- The Socket.IO transport is not modelled: connection options,
  reconnection, and which client events the library actually fires. A
  connection event is an input.
- The MongoDB connection (server/config/database.js) is not part of this
  model. Neither are the 500 error paths of the routes or the logging.
  A socket handler's database call resolving or rejecting is the input
  `dbOk` (`found` for the join lookup).
- Mongoose's schema-level upper-casing of query values is not modelled. The
  socket handler looks rooms up by the id exactly as sent. The room-entry
  form upper-cases the typed code itself before both the join request and
  the socket join (client/src/components/RoomJoin.js:98 and 102), so the
  client's ids are upper-case either way.
- Request bodies whose `roomId` is not a string are not modelled.
- `toUpperCase` is modelled for ASCII letters only. String length counts
  characters, not UTF-16 code units.
- Timers are not modelled: the cleanup interval and the socket timeout.
  `Cleanup` is one run of the interval's body, with the clock as a parameter.
- The health route, the Express wiring, the static client files,
  client/src/components/RoomJoin.js and the presentational components are
  not part of this model.
- `totalStrokes` and `lastClearTimestamp` are modelled with their defaults
  only, because nothing in the code writes them.
- The canvas exposes undo and redo to the keyboard handler through
  `window.canvasUndo` and `window.canvasRedo`. The model instead passes the
  mounted canvas, or none, to `HandleKeyDown`.
- Whiteboard.Session.HandleLeave: the contract states each effect (the
  emit, the closed socket, the navigation) but not their order.
- Delivery of emits over the network is not modelled. The relay records
  each emit, with its recipients, in a ghost `outbox`.
