/**
 * The REST routes of server/routes/rooms.js: `POST /join` (validate,
 * upper-case, create or touch) and `GET /:roomId` (look up or 404).
 */
module RoomsRoute {
  import opened Wrappers
  import opened Text
  import opened RoomModel

  /** The message of the 400 response. */
  const LengthError := "Room ID must be between 4 and 8 characters"
  /** The message of the 404 response. */
  const NotFoundError := "Room not found"

  /**
   * The room id `POST /join` goes on with: the body's `roomId` when it is
   * present and 4 to 8 characters long, upper-cased; none otherwise.
   */
  function JoinRoomId(roomId: Option<string>): (r: Option<RoomId>)
    ensures r.Some? <==> roomId.Some? && 4 <= |roomId.value| <= 8
    ensures r.Some? ==> r.value == ToUpper(roomId.value) && IsUpper(r.value) && |r.value| == |roomId.value|
  {
    if roomId.None? || roomId.value == "" || |roomId.value| < 4 || |roomId.value| > 8 then
      None
    else
      ToUpperShape(roomId.value);
      Some(ToUpper(roomId.value))
  }

  /** The response of `POST /join`. */
  datatype JoinResponse =
    | JoinRejected(status: int, error: string)
    | Joined(success: bool, roomId: RoomId, drawingData: seq<DrawingCommand>)

  /** The room fields `GET /:roomId` returns. */
  datatype RoomInfo = RoomInfo(roomId: RoomId, createdAt: int, lastActivity: int, drawingData: seq<DrawingCommand>)

  /** The response of `GET /:roomId`. */
  datatype GetResponse =
    | RoomNotFound(status: int, error: string)
    | Found(info: RoomInfo)

  /**
   * `GET /:roomId`: the room stored under the upper-cased id, or 404.
   */
  function GetRoom(rooms: map<RoomId, Room>, roomId: string): (resp: GetResponse)
    ensures resp.RoomNotFound? <==> ToUpper(roomId) !in rooms
    ensures resp.RoomNotFound? ==> resp.status == 404
    ensures resp.Found? ==>
      var room := rooms[ToUpper(roomId)];
      resp.info == RoomInfo(room.roomId, room.createdAt, room.lastActivity, room.drawingData)
  {
    var id := ToUpper(roomId);
    if id !in rooms then RoomNotFound(404, NotFoundError)
    else
      var room := rooms[id];
      Found(RoomInfo(room.roomId, room.createdAt, room.lastActivity, room.drawingData))
  }

  /** In a well-keyed store the room found is the one whose id is the upper-cased request, in any letter case. */
  lemma GetRoomFindsUpperCased(rooms: map<RoomId, Room>, a: string, b: string)
    requires WellKeyed(rooms)
    requires ToUpper(a) == ToUpper(b)
    ensures GetRoom(rooms, a) == GetRoom(rooms, b)
    ensures GetRoom(rooms, a).Found? ==> GetRoom(rooms, a).info.roomId == ToUpper(a)
  {
  }

  /**
   * `POST /join`. A missing id, or one of fewer than 4 or more than 8
   * characters, is answered 400 with the store unchanged. Otherwise the
   * upper-cased id is looked up: an absent room is created with an empty log,
   * a present one keeps its log and has only `lastActivity` refreshed by the
   * save; the answer carries the stored id and log, and a later
   * `GET /:roomId` with the same id finds exactly that.
   */
  method PostJoin(db: RoomCollection, roomId: Option<string>, now: int) returns (resp: JoinResponse)
    requires WellKeyed(db.rooms)
    modifies db
    ensures WellKeyed(db.rooms)
    ensures resp.JoinRejected? <==> JoinRoomId(roomId).None?
    ensures resp.JoinRejected? ==> resp.status == 400 && resp.error == LengthError && db.rooms == old(db.rooms)
    ensures resp.Joined? ==>
      var id := JoinRoomId(roomId).value;
      && resp.success
      && resp.roomId == id
      && id in db.rooms
      && db.rooms == old(db.rooms)[id := db.rooms[id]]
      && (id !in old(db.rooms) ==> db.rooms[id] == NewRoom(id, now))
      && (id in old(db.rooms) ==> db.rooms[id] == old(db.rooms)[id].(lastActivity := now))
      && resp.drawingData == db.rooms[id].drawingData
      && GetRoom(db.rooms, roomId.value) == Found(RoomInfo(id, db.rooms[id].createdAt, now, resp.drawingData))
  {
    var checked := JoinRoomId(roomId);
    if checked.None? {
      return JoinRejected(400, LengthError);
    }
    var id := checked.value;
    var room: Room;
    if id !in db.rooms {
      room := NewRoom(id, now);
      ToUpperIdempotent(id);
    } else {
      room := db.rooms[id];
      room := room.(lastActivity := now);
    }
    room := PreSave(room, now);
    db.rooms := db.rooms[room.roomId := room];
    resp := Joined(true, room.roomId, room.drawingData);
  }
}
