/** The stores as they are written: each method is one transaction that updates the tables in
    place (`backend/src/users/users.cpp`, `backend/src/users/tokens.cpp`,
    `backend/src/channels/channel_groups.cpp`, `backend/src/request/request.cpp`,
    `commit_proxy_usage` in `backend/src/proxy/gateway.cpp`). */
module Store {
  import opened Text
  import opened Database
  import opened TokenRules
  import opened Ledger

  /** What `commit_proxy_usage` reads of a proxied request. */
  datatype ProxyCall = ProxyCall(
    request: Request,
    channelId: int,
    pricing: Pricing,
    tierMultiplier: real,
    channelMultiplier: real)

  function CostOf(call: ProxyCall): real {
    ComputeUsd(call.pricing, call.request, call.tierMultiplier, call.channelMultiplier)
  }

  function DayOf(time: string): string {
    if |time| >= 10 then time[..10] else time
  }

  /** The request as recorded: its day, its channel and its cost filled in. */
  function Priced(call: ProxyCall): Request {
    call.request.(date := DayOf(call.request.time), channelId := call.channelId, usd := CostOf(call))
  }

  predicate Billable(call: ProxyCall) {
    call.request.id > 0 && call.request.userId > 0 && call.request.tokenId > 0 && call.channelId > 0
  }

  /** Debit, then record; nothing at all without the ids or the money. */
  function CommitUsage(db: Db, call: ProxyCall, now: string): (Db, bool) {
    if !Billable(call) then (db, false)
    else
      var (debited, paid) := Debit(db, call.request.userId, CostOf(call));
      if !paid then (debited, false) else Commit(debited, Priced(call), call.request.time, now)
  }

  lemma {:induction false} WithoutTwice(rows: seq<Request>, a: Request -> bool, b: Request -> bool, either: Request -> bool)
    requires forall r :: either(r) <==> a(r) || b(r)
    ensures Without(Without(rows, a), b) == Without(rows, either)
  {
    if rows != [] {
      var init, last := rows[..|rows| - 1], rows[|rows| - 1];
      WithoutTwice(init, a, b, either);
      if a(last) {
        assert Without(rows, a) == Without(init, a);
      } else {
        var kept := Without(init, a);
        assert Without(rows, a) == kept + [last];
        assert (kept + [last])[..|kept|] == kept;
      }
    }
  }

  lemma DropOneMore(db: Db, ids: set<int>, t: int)
    ensures DropToken(DropTokens(db, ids), t) == DropTokens(db, ids + {t})
  {
    WithoutTwice(db.rows, (r: Request) => r.tokenId in ids, (r: Request) => r.tokenId == t,
                 (r: Request) => r.tokenId in ids + {t});
  }

  lemma {:induction false} WithoutNothing(rows: seq<Request>, drop: Request -> bool)
    requires forall r :: !drop(r)
    ensures Without(rows, drop) == rows
  {
    if rows != [] {
      var init, last := rows[..|rows| - 1], rows[|rows| - 1];
      WithoutNothing(init, drop);
      assert Without(rows, drop) == Without(init, drop) + [last];
      assert init + [last] == rows;
    }
  }

  lemma DropNothing(db: Db)
    ensures DropTokens(db, {}) == db
  {
    var ids: set<int> := {};
    WithoutNothing(db.rows, (r: Request) => r.tokenId in ids);
    assert DropTokens(db, ids).totals == db.totals;
  }

  function Members(ids: seq<int>): set<int> {
    set id | id in ids
  }

  lemma StillOwned(db: Db, hash: string -> string, userId: int, gone: set<int>, t: int)
    requires TokenInv(db, hash) && t in TokensOf(db, userId) && t !in gone
    ensures Owns(DropTokens(db, gone), userId, t) && t > 0 && userId > 0
  {
  }

  class Store {
    const hash: string -> string
    var users: map<int, User>
    var tokens: map<int, Token>
    var groups: map<int, Group>
    var rows: seq<Request>
    var totals: map<TotalId, Total>
    var sessions: map<string, Session>
    var lastUserId: nat
    var lastTokenId: nat
    var lastGroupId: nat

    ghost function View(): Db
      reads this
    {
      Db(users, tokens, groups, rows, totals, sessions, lastUserId, lastTokenId, lastGroupId)
    }

    ghost predicate Valid()
      reads this
    {
      TokenInv(View(), hash)
    }

    constructor (hash: string -> string)
      ensures this.hash == hash && View() == EMPTY && Valid()
    {
      this.hash := hash;
      users, tokens, groups, rows, totals, sessions := map[], map[], map[], [], map[], map[];
      lastUserId, lastTokenId, lastGroupId := 0, 0, 0;
    }

    // ----- users -----

    method CreateUser(user: User) returns (id: int)
      requires Valid()
      modifies this
      ensures Valid() && View() == Database.CreateUser(old(View()), user) && id == lastUserId
      ensures id !in old(users) && users == old(users)[id := user] && View() == old(View()).(users := users, lastUserId := id)
    {
      UsersKeep(View(), hash, 0, user);
      lastUserId := lastUserId + 1;
      id := lastUserId;
      users := users[id := user];
    }

    method UpdateUser(id: int, user: User) returns (ok: bool)
      requires Valid()
      modifies this
      ensures Valid() && (View(), ok) == Database.UpdateUser(old(View()), id, user)
      ensures ok == (id in old(users)) && users == (if ok then old(users)[id := user] else old(users))
      ensures View() == old(View()).(users := users)
    {
      if id !in users {
        return false;
      }
      var row := users[id];
      row := row.(profile := user.profile);
      row := row.(status := user.status);
      row := row.(balanceUsd := user.balanceUsd);
      users := users[id := row];
      return true;
    }

    method DebitUserBalance(userId: int, delta: real) returns (ok: bool)
      requires Valid()
      modifies this`users
      ensures Valid() && (View(), ok) == Debit(old(View()), userId, delta)
      ensures !ok || delta <= 0.0 ==> users == old(users)
      ensures ok && delta > 0.0 ==>
                && userId in old(users) && delta <= old(users[userId].balanceUsd)
                && users == old(users)[userId := old(users[userId]).(balanceUsd := RoundMicros(old(users[userId].balanceUsd) - delta))]
    {
      if delta <= 0.0 {
        return true;
      }
      var balance := if userId in users then users[userId].balanceUsd else 0.0;
      if balance < delta {
        return false;
      }
      var next := RoundMicros(balance - delta);
      users := users[userId := users[userId].(balanceUsd := next)];
      return true;
    }

    method DeleteUser(userId: int) returns (ok: bool)
      requires Valid()
      modifies this
      ensures Valid() && (View(), ok) == Database.DeleteUser(old(View()), userId)
    {
      hide TokenInv, DropTokens, DropToken, Owns;
      ghost var before := View();
      DeleteUserKeeps(before, hash, userId);
      if userId !in users {
        return false;
      }
      var ids := ListUserTokens(userId);
      DropNothing(before);
      assert Members(ids[..0]) == {};
      for i := 0 to |ids|
        invariant TokenInv(View(), hash) && View() == DropTokens(before, Members(ids[..i]))
      {
        assert ids[i] in Members(ids) && ids[i] !in ids[..i];
        StillOwned(before, hash, userId, Members(ids[..i]), ids[i]);
        DropOneMore(before, Members(ids[..i]), ids[i]);
        var _ := DeleteUserToken(userId, ids[i]);
        assert Members(ids[..i + 1]) == Members(ids[..i]) + {ids[i]};
      }
      assert ids[..|ids|] == ids;
      rows := Without(rows, (r: Request) => r.userId == userId);
      totals := map k | k in totals && k.userId != userId :: totals[k];
      sessions := map h | h in sessions && sessions[h].userId != userId :: sessions[h];
      users := users - {userId};
      return true;
    }

    // ----- sessions -----

    method CreateSession(tokenHash: string, session: Session)
      requires Valid()
      modifies this`sessions
      ensures session.userId in users ==> Valid()
      ensures View() == Database.CreateSession(old(View()), tokenHash, session)
      ensures sessions == if session.userId > 0 && tokenHash !in old(sessions) then old(sessions)[tokenHash := session]
                          else old(sessions)
    {
      SessionsKeep(View(), hash, tokenHash, session);
      if session.userId > 0 && tokenHash !in sessions {
        sessions := sessions[tokenHash := session];
      }
    }

    method DeleteSessionByTokenHash(tokenHash: string)
      requires Valid()
      modifies this`sessions
      ensures Valid() && View() == DeleteSession(old(View()), tokenHash)
      ensures sessions == if tokenHash == "" then old(sessions) else old(sessions) - {tokenHash}
    {
      SessionsKeep(View(), hash, tokenHash, Session(0, ""));
      if tokenHash == "" {
        return;
      }
      sessions := sessions - {tokenHash};
    }

    // ----- tokens -----

    /** `ORDER BY id DESC` */
    method ListUserTokens(userId: int) returns (ids: seq<int>)
      requires Valid()
      ensures Members(ids) == TokensOf(View(), userId)
      ensures forall i, j | 0 <= i < j < |ids| :: ids[i] > ids[j]
    {
      ids := [];
      for t := lastTokenId + 1 downto 1
        invariant forall i | 0 <= i < |ids| :: ids[i] >= t
        invariant forall id :: id in ids <==> id in tokens && tokens[id].userId == userId && id >= t
        invariant forall i, j | 0 <= i < j < |ids| :: ids[i] > ids[j]
      {
        if t in tokens && tokens[t].userId == userId {
          ids := ids + [t];
        }
      }
      assert forall id :: id in Members(ids) <==> id in TokensOf(View(), userId);
    }

    method CreateUserToken(userId: int, name: Option<string>, raw: string) returns (id: Option<int>)
      requires Valid()
      modifies this
      ensures Valid() && (View(), id) == CreateToken(old(View()), hash, userId, name, raw)
      ensures userId > 0 && raw != "" ==>
                && id.Some? && id.value !in old(tokens)
                && tokens == old(tokens)[id.value := Token(userId, if name == Some("") then None else name, hash(raw), Some(raw), 1, 0)]
                && View() == old(View()).(tokens := tokens, lastTokenId := id.value)
      ensures userId <= 0 || raw == "" ==> View() == old(View()) && id == if userId <= 0 then Some(0) else None
    {
      CreateTokenKeeps(View(), hash, userId, name, raw);
      if userId <= 0 {
        return Some(0);
      }
      if raw == "" {
        return None;
      }
      lastTokenId := lastTokenId + 1;
      tokens := tokens[lastTokenId := Token(userId, CleanName(name), hash(raw), Some(raw), 1, 0)];
      return Some(lastTokenId);
    }

    method RevealUserToken(userId: int, tokenId: int) returns (raw: Option<string>)
      ensures raw == Reveal(View(), userId, tokenId)
      ensures raw.Some? <==>
                && userId > 0 && tokenId > 0 && tokenId in tokens && tokens[tokenId].userId == userId
                && tokens[tokenId].status == 1 && tokens[tokenId].plain.Some? && tokens[tokenId].plain.value != ""
      ensures raw.Some? ==> raw == tokens[tokenId].plain
    {
      if userId <= 0 || tokenId <= 0 {
        return None;
      }
      if tokenId !in tokens || tokens[tokenId].userId != userId || tokens[tokenId].status != 1 {
        return None;
      }
      var got := tokens[tokenId].plain;
      if got.None? || got.value == "" {
        return None;
      }
      return got;
    }

    method RotateUserToken(userId: int, tokenId: int, raw: string) returns (ok: Option<bool>)
      requires Valid()
      modifies this`tokens
      ensures Valid() && (View(), ok) == RotateToken(old(View()), hash, userId, tokenId, raw)
      ensures ok != Some(true) ==> tokens == old(tokens)
      ensures ok == Some(true) <==>
                userId > 0 && tokenId > 0 && raw != "" && tokenId in old(tokens) && old(tokens)[tokenId].userId == userId
      ensures ok == Some(true) ==>
                tokens == old(tokens)[tokenId := old(tokens)[tokenId].(hash := hash(raw), plain := Some(raw), status := 1)]
    {
      RotateTokenKeeps(View(), hash, userId, tokenId, raw);
      if userId <= 0 || tokenId <= 0 {
        return Some(false);
      }
      if raw == "" {
        return None;
      }
      if tokenId !in tokens || tokens[tokenId].userId != userId {
        return Some(false);
      }
      tokens := tokens[tokenId := tokens[tokenId].(hash := hash(raw), plain := Some(raw), status := 1)];
      return Some(true);
    }

    method RevokeUserToken(userId: int, tokenId: int)
      requires Valid()
      modifies this`tokens
      ensures Valid() && View() == RevokeToken(old(View()), userId, tokenId)
      ensures var known := userId > 0 && tokenId in old(tokens) && old(tokens)[tokenId].userId == userId;
              tokens == if known && old(tokens)[tokenId].status == 1
                        then old(tokens)[tokenId := old(tokens)[tokenId].(status := 0, plain := None)]
                        else old(tokens)
    {
      RevokeTokenKeeps(View(), hash, userId, tokenId);
      if userId <= 0 || tokenId <= 0 {
        return;
      }
      if tokenId in tokens && tokens[tokenId].userId == userId && tokens[tokenId].status == 1 {
        tokens := tokens[tokenId := tokens[tokenId].(status := 0, plain := None)];
      }
    }

    method DeleteUserToken(userId: int, tokenId: int) returns (ok: bool)
      requires Valid()
      modifies this
      ensures Valid() && (View(), ok) == DeleteToken(old(View()), userId, tokenId)
      ensures ok <==> userId > 0 && tokenId > 0 && tokenId in old(tokens) && old(tokens)[tokenId].userId == userId
      ensures tokens == if ok then old(tokens) - {tokenId} else old(tokens)
    {
      DeleteTokenKeeps(View(), hash, userId, tokenId);
      if userId <= 0 || tokenId <= 0 {
        return false;
      }
      if tokenId !in tokens || tokens[tokenId].userId != userId {
        return false;
      }
      totals := map k | k in totals && k.tokenId != tokenId :: totals[k];
      rows := Without(rows, (r: Request) => r.tokenId == tokenId);
      tokens := tokens - {tokenId};
      return true;
    }

    method ResolveRawToken(raw: string) returns (r: Option<Resolved>)
      ensures MayResolve(View(), hash, raw, r)
    {
      if raw == "" {
        return None;
      }
      var h := hash(raw);
      if t :| t in tokens && tokens[t].hash == h && tokens[t].status == 1 &&
              tokens[t].userId in users && users[tokens[t].userId].status == 1 { // LIMIT 1 without an order
        assert Selected(View(), hash, raw, t);
        var groupId := tokens[t].channelGroupId;
        if groupId <= 0 {
          return None;
        }
        return Some(Resolved(tokens[t].userId, t, groupId));
      }
      return None;
    }

    method SetTokenChannelGroup(userId: int, tokenId: int, groupId: int) returns (ok: Option<bool>)
      requires Valid()
      modifies this`tokens
      ensures Valid() && (View(), ok) == SetTokenGroup(old(View()), userId, tokenId, groupId)
      ensures ok == Some(true) <==>
                && userId > 0 && tokenId > 0 && tokenId in old(tokens) && old(tokens)[tokenId].userId == userId
                && groupId > 0 && groupId in groups && groups[groupId].enabled
      ensures tokens == if ok == Some(true) then old(tokens)[tokenId := old(tokens)[tokenId].(channelGroupId := groupId)]
                        else old(tokens)
    {
      SetTokenGroupKeeps(View(), hash, userId, tokenId, groupId);
      if userId <= 0 || tokenId <= 0 || groupId <= 0 {
        return Some(false);
      }
      if tokenId !in tokens || tokens[tokenId].userId != userId {
        return Some(false);
      }
      if groupId !in groups {
        return None;
      }
      if !groups[groupId].enabled {
        return None;
      }
      tokens := tokens[tokenId := tokens[tokenId].(channelGroupId := groupId)];
      return Some(true);
    }

    // ----- channel groups -----

    method CreateChannelGroup(name: string, description: string, priceMultiplier: real, enabled: bool)
      returns (id: int)
      requires Valid()
      modifies this
      ensures Valid() && id == lastGroupId
      ensures View() == CreateGroup(old(View()), Group(name, description, priceMultiplier, enabled))
      ensures id !in old(groups) && groups == old(groups)[id := Group(name, description, priceMultiplier, enabled)]
    {
      CreateGroupKeeps(View(), hash, Group(name, description, priceMultiplier, enabled));
      lastGroupId := lastGroupId + 1;
      id := lastGroupId;
      groups := groups[id := Group(name, description, priceMultiplier, enabled)];
    }

    method UpdateChannelGroup(id: int, name: string, description: string, priceMultiplier: real) returns (ok: bool)
      requires Valid()
      modifies this`groups
      ensures Valid() && (View(), ok) == UpdateGroup(old(View()), id, name, description, priceMultiplier)
      ensures ok == (id in old(groups))
      ensures groups == if ok then old(groups)[id := Group(name, description, priceMultiplier, old(groups)[id].enabled)]
                        else old(groups)
    {
      UpdateGroupKeeps(View(), hash, id, name, description, priceMultiplier);
      if id !in groups {
        return false;
      }
      groups := groups[id := groups[id].(name := name, description := description, priceMultiplier := priceMultiplier)];
      return true;
    }

    method DeleteChannelGroup(groupId: int) returns (ok: bool)
      requires Valid()
      modifies this
      ensures Valid() && (View(), ok) == DeleteGroup(old(View()), groupId)
      ensures ok == (groupId in old(groups)) && groups == old(groups) - {groupId} && tokens.Keys == old(tokens).Keys
      ensures forall t | t in tokens ::
                tokens[t] == if ok && old(tokens)[t].channelGroupId == groupId then old(tokens)[t].(channelGroupId := 0)
                             else old(tokens)[t]
    {
      DeleteGroupKeeps(View(), hash, groupId);
      if groupId !in groups {
        return false;
      }
      tokens := Unbind(tokens, groupId);
      groups := groups - {groupId};
      return true;
    }

    // ----- requests -----

    method ApplyTotal(r: Request)
      modifies this`totals
      ensures totals == Database.ApplyTotal(old(totals), r)
    {
      if r.userId <= 0 || r.tokenId <= 0 || r.date == "" {
        return;
      }
      var cacheCreation := Clamp(r.cacheCreation5mTokens) + Clamp(r.cacheCreation1hTokens);
      var totalTokens := Clamp(r.inputTokens) + Clamp(r.outputTokens) + Clamp(r.cacheReadTokens) + cacheCreation;
      var key := TotalId(r.userId, r.tokenId, r.date);
      if key in totals {
        var total := totals[key];
        totals := totals[key := Total(
          total.requests + 1,
          total.inputTokens + Clamp(r.inputTokens),
          total.outputTokens + Clamp(r.outputTokens),
          total.cacheReadTokens + Clamp(r.cacheReadTokens),
          total.cacheCreationTokens + cacheCreation,
          total.tokens + totalTokens,
          total.usd + r.usd,
          total.firstTokenLatencySum + Clamp(r.firstTokenLatencyMs))];
      } else {
        totals := totals[key := Total(
          1,
          Clamp(r.inputTokens),
          Clamp(r.outputTokens),
          Clamp(r.cacheReadTokens),
          cacheCreation,
          totalTokens,
          r.usd,
          Clamp(r.firstTokenLatencyMs))];
      }
    }

    method CommitRequest(r: Request, finishedAt: string, now: string) returns (ok: bool)
      requires Valid()
      modifies this`rows, this`totals
      ensures Valid() && (View(), ok) == Commit(old(View()), r, finishedAt, now)
    {
      if r.id <= 0 || r.userId <= 0 || r.tokenId <= 0 {
        return false;
      }
      if HasId(rows, r.id) {
        return true;
      }
      var time := TrimAscii(r.time);
      if time == "" {
        time := TrimAscii(finishedAt);
        if time == "" {
          time := now;
        }
      }
      var date := r.date;
      if date == "" && |time| >= 10 {
        date := time[..10];
      }
      var stamped := r.(time := time, date := date);
      rows := rows + [stamped];
      ApplyTotal(stamped);
      return true;
    }

    /** Two transactions: the debit, then the record. */
    method CommitProxyUsage(call: ProxyCall, now: string) returns (ok: bool)
      requires Valid()
      modifies this`users, this`rows, this`totals
      ensures Valid() && (View(), ok) == CommitUsage(old(View()), call, now)
    {
      if call.request.id <= 0 {
        return false;
      }
      if call.request.userId <= 0 {
        return false;
      }
      if call.request.tokenId <= 0 {
        return false;
      }
      if call.channelId <= 0 {
        return false;
      }
      var usd := CostOf(call);
      var paid := DebitUserBalance(call.request.userId, usd);
      if !paid {
        return false;
      }
      var request := call.request.(date := DayOf(call.request.time), channelId := call.channelId, usd := usd);
      ok := CommitRequest(request, call.request.time, now);
    }
  }
}
