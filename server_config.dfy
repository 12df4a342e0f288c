/**
 * The two decisions of server/index.js that are not wiring: which origins
 * CORS lets in, and which rooms the hourly cleanup deletes.
 */
module ServerConfig {
  import opened Wrappers
  import opened Text
  import opened ValidateEnv
  import RoomModel

  const DefaultLocalhost := "http://localhost:3000"
  const DefaultLoopback := "http://127.0.0.1:3000"

  /** `process.env[name]`: undefined when unset. */
  function EnvGet(env: Env, name: string): Option<string> {
    if name in env then Some(env[name]) else None
  }

  /** `values.filter(Boolean)` on strings that may be undefined: drops undefined and empty entries, keeping order. */
  function FilterTruthy(values: seq<Option<string>>): (r: seq<string>)
    ensures forall o :: o in r <==> Some(o) in values && o != ""
    decreases |values|
  {
    if values == [] then []
    else
      var rest := FilterTruthy(values[1..]);
      assert forall v :: v in values <==> v == values[0] || v in values[1..];
      if values[0].Some? && values[0].value != "" then [values[0].value] + rest else rest
  }

  /** `allowedOrigins`: `CLIENT_URL` when it is set and not empty, then the two local defaults. */
  function AllowedOrigins(env: Env): (r: seq<string>)
    ensures forall o :: o in r <==>
      o == DefaultLocalhost || o == DefaultLoopback || (IsSet(env, "CLIENT_URL") && o == env["CLIENT_URL"])
  {
    FilterTruthy([EnvGet(env, "CLIENT_URL"), Some(DefaultLocalhost), Some(DefaultLoopback)])
  }

  /**
   * The `corsOptions.origin` callback, as allow (true) or "Not allowed by
   * CORS" (false). A request without an origin is allowed; in development
   * any origin mentioning "localhost" or "127.0.0.1" is; otherwise exactly
   * the allowlist is, and an unset `CLIENT_URL` matches nothing.
   */
  function CorsAllows(origin: Option<string>, env: Env): (allowed: bool)
    ensures origin.None? || origin.value == "" ==> allowed
    ensures origin.Some? && origin.value != "" ==>
      (allowed <==>
        || (EnvGet(env, "NODE_ENV") == Some("development")
            && (Contains(origin.value, "localhost") || Contains(origin.value, "127.0.0.1")))
        || origin.value == DefaultLocalhost
        || origin.value == DefaultLoopback
        || (IsSet(env, "CLIENT_URL") && origin.value == env["CLIENT_URL"]))
  {
    if origin.None? || origin.value == "" then
      true
    else
      var allowedOrigins := AllowedOrigins(env);
      if EnvGet(env, "NODE_ENV") == Some("development")
         && (Contains(origin.value, "localhost") || Contains(origin.value, "127.0.0.1")) then
        true
      else
        origin.value in allowedOrigins
  }

  /** Outside development, an origin that mentions "localhost" but is not on the allowlist is refused. */
  lemma ProductionRefusesOtherLocalPorts(env: Env)
    requires EnvGet(env, "NODE_ENV") != Some("development")
    requires !IsSet(env, "CLIENT_URL")
    ensures !CorsAllows(Some("http://localhost:8080"), env)
    ensures CorsAllows(Some(DefaultLocalhost), env)
  {
  }

  /** One day in milliseconds: the staleness threshold of the cleanup. */
  const OneDayMs: int := 24 * 60 * 60 * 1000

  /** The cleanup's filter `{ lastActivity: { $lt: oneDayAgo } }`. */
  predicate IsStale(room: RoomModel.Room, now: int) {
    room.lastActivity < now - OneDayMs
  }

  /** `Room.deleteMany` with that filter: the store after one cleanup run at time `now`. */
  function Cleanup(rooms: map<RoomModel.RoomId, RoomModel.Room>, now: int): (r: map<RoomModel.RoomId, RoomModel.Room>)
    ensures forall k :: k in r <==> k in rooms && rooms[k].lastActivity >= now - 86_400_000
    ensures forall k :: k in r ==> r[k] == rooms[k]
  {
    map k | k in rooms && !IsStale(rooms[k], now) :: rooms[k]
  }

  /** A room last active exactly one day ago survives the cleanup; one a millisecond older does not. */
  lemma CutoffIsStrict(rooms: map<RoomModel.RoomId, RoomModel.Room>, k: RoomModel.RoomId, now: int)
    requires k in rooms
    ensures rooms[k].lastActivity == now - 86_400_000 ==> k in Cleanup(rooms, now)
    ensures rooms[k].lastActivity == now - 86_400_001 ==> k !in Cleanup(rooms, now)
  {
  }

  /** Running the cleanup twice at the same time deletes nothing more. */
  lemma CleanupIdempotent(rooms: map<RoomModel.RoomId, RoomModel.Room>, now: int)
    ensures Cleanup(Cleanup(rooms, now), now) == Cleanup(rooms, now)
  {
  }
}
