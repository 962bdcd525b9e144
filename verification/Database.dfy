/** The tables behind the user, token, group and request stores, and each store operation as
    one transaction on them (`backend/src/users`, `backend/src/request`, `backend/src/channels`). */
module Database {
  import opened Text

  datatype Profile = Profile(email: string, username: string, passwordHash: string, role: string)

  datatype User = User(profile: Profile, status: int, balanceUsd: real)

  datatype Token = Token(
    userId: int,
    name: Option<string>,
    hash: string,
    plain: Option<string>,
    status: int,
    channelGroupId: int)

  datatype Group = Group(name: string, description: string, priceMultiplier: real, enabled: bool)

  /** A web session; its key is the hash of the cookie. */
  datatype Session = Session(userId: int, expiresAt: string)

  /** A proxied request as handed to `Request::commit`; `date` is not stored with the row. */
  datatype Request = Request(
    id: int,
    time: string,
    date: string,
    userId: int,
    tokenId: int,
    channelId: int,
    inputTokens: int,
    outputTokens: int,
    cacheReadTokens: int,
    cacheCreation5mTokens: int,
    cacheCreation1hTokens: int,
    firstTokenLatencyMs: int,
    usd: real)

  /** The primary key of `request_totals`. */
  datatype TotalId = TotalId(userId: int, tokenId: int, date: string)

  datatype Total = Total(
    requests: int,
    inputTokens: int,
    outputTokens: int,
    cacheReadTokens: int,
    cacheCreationTokens: int,
    tokens: int,
    usd: real,
    firstTokenLatencySum: int)

  /** The tables; `last*` are the auto-increment counters. */
  datatype Db = Db(
    users: map<int, User>,
    tokens: map<int, Token>,
    groups: map<int, Group>,
    rows: seq<Request>,
    totals: map<TotalId, Total>,
    sessions: map<string, Session>,
    lastUserId: nat,
    lastTokenId: nat,
    lastGroupId: nat)

  const EMPTY := Db(map[], map[], map[], [], map[], map[], 0, 0, 0)

  function Clamp(n: int): nat {
    if n > 0 then n else 0
  }

  // ---------------------------------------------------------------------------------
  // Requests and totals
  // ---------------------------------------------------------------------------------

  function ZeroTotal(): Total {
    Total(0, 0, 0, 0, 0, 0, 0.0, 0)
  }

  /** `apply_total`: the update branch, and the insert branch as an update of zero. */
  function Accumulate(total: Total, r: Request): Total {
    var cacheCreation := Clamp(r.cacheCreation5mTokens) + Clamp(r.cacheCreation1hTokens);
    Total(
      total.requests + 1,
      total.inputTokens + Clamp(r.inputTokens),
      total.outputTokens + Clamp(r.outputTokens),
      total.cacheReadTokens + Clamp(r.cacheReadTokens),
      total.cacheCreationTokens + cacheCreation,
      total.tokens + Clamp(r.inputTokens) + Clamp(r.outputTokens) + Clamp(r.cacheReadTokens) + cacheCreation,
      total.usd + r.usd,
      total.firstTokenLatencySum + Clamp(r.firstTokenLatencyMs))
  }

  function ApplyTotal(totals: map<TotalId, Total>, r: Request): map<TotalId, Total> {
    if r.userId <= 0 || r.tokenId <= 0 || r.date == "" then totals
    else
      var key := TotalId(r.userId, r.tokenId, r.date);
      totals[key := Accumulate(if key in totals then totals[key] else ZeroTotal(), r)]
  }

  function OccurredAt(r: Request, finishedAt: string, now: string): string {
    if Trim(r.time) != "" then Trim(r.time)
    else if Trim(finishedAt) != "" then Trim(finishedAt)
    else now
  }

  /** The request as `commit` persists it, with the date its total is filed under. */
  function Stamped(r: Request, finishedAt: string, now: string): Request {
    var occurred := OccurredAt(r, finishedAt, now);
    r.(time := occurred, date := if r.date == "" && |occurred| >= 10 then occurred[..10] else r.date)
  }

  predicate HasId(rows: seq<Request>, id: int) {
    exists i :: 0 <= i < |rows| && rows[i].id == id
  }

  function Commit(db: Db, r: Request, finishedAt: string, now: string): (Db, bool) {
    if r.id <= 0 || r.userId <= 0 || r.tokenId <= 0 then (db, false)
    else if HasId(db.rows, r.id) then (db, true)
    else
      var s := Stamped(r, finishedAt, now);
      (db.(rows := db.rows + [s], totals := ApplyTotal(db.totals, s)), true)
  }

  function Without(rows: seq<Request>, drop: Request -> bool): seq<Request> {
    if rows == [] then []
    else
      Without(rows[..|rows| - 1], drop) +
      (if drop(rows[|rows| - 1]) then [] else [rows[|rows| - 1]])
  }

  // ---------------------------------------------------------------------------------
  // Users
  // ---------------------------------------------------------------------------------

  function CreateUser(db: Db, user: User): Db {
    db.(lastUserId := db.lastUserId + 1, users := db.users[db.lastUserId + 1 := user])
  }

  /** The user both account handlers create: active, with no balance. */
  function NewUser(profile: Profile): User {
    User(profile, 1, 0.0)
  }

  /** A cookie hash already taken is refused by the primary key. */
  function CreateSession(db: Db, tokenHash: string, session: Session): Db {
    if session.userId <= 0 || tokenHash in db.sessions then db
    else db.(sessions := db.sessions[tokenHash := session])
  }

  function DeleteSession(db: Db, tokenHash: string): Db {
    if tokenHash == "" then db else db.(sessions := db.sessions - {tokenHash})
  }

  function UpdateUser(db: Db, id: int, user: User): (Db, bool) {
    if id !in db.users then (db, false) else (db.(users := db.users[id := user]), true)
  }

  /** Text of a balance with six decimals, as a value: the nearest millionth, ties to even. */
  function RoundMicros(x: real): real {
    var floor := (x * 1000000.0).Floor;
    var rest := x * 1000000.0 - floor as real;
    var micros := if rest < 0.5 || (rest == 0.5 && floor % 2 == 0) then floor else floor + 1;
    micros as real / 1000000.0
  }

  function Debit(db: Db, userId: int, delta: real): (Db, bool) {
    if delta <= 0.0 then (db, true)
    else
      var balance := if userId in db.users then db.users[userId].balanceUsd else 0.0;
      if balance < delta then (db, false)
      else
        var user := db.users[userId];
        (db.(users := db.users[userId := user.(balanceUsd := RoundMicros(balance - delta))]), true)
  }

  // ---------------------------------------------------------------------------------
  // Tokens and groups
  // ---------------------------------------------------------------------------------

  predicate Owns(db: Db, userId: int, tokenId: int) {
    tokenId in db.tokens && db.tokens[tokenId].userId == userId
  }

  /** An empty name is stored as no name. */
  function CleanName(name: Option<string>): Option<string> {
    if name == Some("") then None else name
  }

  /** `None` stands for the exception on an empty raw token. */
  function CreateToken(db: Db, hash: string -> string, userId: int, name: Option<string>, raw: string): (Db, Option<int>) {
    if userId <= 0 then (db, Some(0))
    else if raw == "" then (db, None)
    else
      var id := db.lastTokenId + 1;
      var token := Token(userId, CleanName(name), hash(raw), Some(raw), 1, 0);
      (db.(lastTokenId := id, tokens := db.tokens[id := token]), Some(id))
  }

  function RotateToken(db: Db, hash: string -> string, userId: int, tokenId: int, raw: string): (Db, Option<bool>) {
    if userId <= 0 || tokenId <= 0 then (db, Some(false))
    else if raw == "" then (db, None)
    else if !Owns(db, userId, tokenId) then (db, Some(false))
    else
      var token := db.tokens[tokenId].(hash := hash(raw), plain := Some(raw), status := 1);
      (db.(tokens := db.tokens[tokenId := token]), Some(true))
  }

  function RevokeToken(db: Db, userId: int, tokenId: int): Db {
    if userId <= 0 || tokenId <= 0 || !Owns(db, userId, tokenId) || db.tokens[tokenId].status != 1 then db
    else db.(tokens := db.tokens[tokenId := db.tokens[tokenId].(status := 0, plain := None)])
  }

  /** The token with its requests and totals, whoever they are filed under. */
  function DropToken(db: Db, tokenId: int): Db {
    db.(tokens := db.tokens - {tokenId},
        rows := Without(db.rows, (r: Request) => r.tokenId == tokenId),
        totals := map k | k in db.totals && k.tokenId != tokenId :: db.totals[k])
  }

  function DeleteToken(db: Db, userId: int, tokenId: int): (Db, bool) {
    if userId <= 0 || tokenId <= 0 || !Owns(db, userId, tokenId) then (db, false)
    else (DropToken(db, tokenId), true)
  }

  /** `None` stands for the exception on a missing or disabled group. */
  function SetTokenGroup(db: Db, userId: int, tokenId: int, groupId: int): (Db, Option<bool>) {
    if userId <= 0 || tokenId <= 0 || groupId <= 0 then (db, Some(false))
    else if !Owns(db, userId, tokenId) then (db, Some(false))
    else if groupId !in db.groups || !db.groups[groupId].enabled then (db, None)
    else (db.(tokens := db.tokens[tokenId := db.tokens[tokenId].(channelGroupId := groupId)]), Some(true))
  }

  function CreateGroup(db: Db, group: Group): Db {
    db.(lastGroupId := db.lastGroupId + 1, groups := db.groups[db.lastGroupId + 1 := group])
  }

  /** The status of a group is set when it is created and never changed. */
  function UpdateGroup(db: Db, groupId: int, name: string, description: string, priceMultiplier: real): (Db, bool) {
    if groupId !in db.groups then (db, false)
    else
      var group := db.groups[groupId].(name := name, description := description, priceMultiplier := priceMultiplier);
      (db.(groups := db.groups[groupId := group]), true)
  }

  function Unbind(tokens: map<int, Token>, groupId: int): map<int, Token> {
    map t | t in tokens ::
      if tokens[t].channelGroupId == groupId then tokens[t].(channelGroupId := 0) else tokens[t]
  }

  /** Deleting a group unbinds its tokens. */
  function DeleteGroup(db: Db, groupId: int): (Db, bool) {
    if groupId !in db.groups then (db, false)
    else
      (db.(groups := db.groups - {groupId}, tokens := Unbind(db.tokens, groupId)), true)
  }

  function TokensOf(db: Db, userId: int): set<int> {
    set t | t in db.tokens && db.tokens[t].userId == userId
  }

  function DropTokens(db: Db, ids: set<int>): Db {
    db.(tokens := db.tokens - ids,
        rows := Without(db.rows, (r: Request) => r.tokenId in ids),
        totals := map k | k in db.totals && k.tokenId !in ids :: db.totals[k])
  }

  /** `delete_user`: every token of the user, then what is left under the user's id. */
  function DeleteUser(db: Db, userId: int): (Db, bool) {
    if userId !in db.users then (db, false)
    else
      var d := DropTokens(db, TokensOf(db, userId));
      (d.(rows := Without(d.rows, (r: Request) => r.userId == userId),
          totals := map k | k in d.totals && k.userId != userId :: d.totals[k],
          sessions := map h | h in d.sessions && d.sessions[h].userId != userId :: d.sessions[h],
          users := d.users - {userId}),
       true)
  }
}
