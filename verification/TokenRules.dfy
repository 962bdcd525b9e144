/** The token life cycle (`backend/src/users/tokens.cpp`, `backend/src/channels/channel_groups.cpp`):
    which raw tokens resolve in a reachable state. */
module TokenRules {
  import opened Text
  import opened Database

  /** An active token stores a plaintext with the stored hash, a revoked one stores none, a bound
      group exists and is enabled, and a session belongs to a user. */
  ghost predicate TokenInv(db: Db, hash: string -> string) {
    && (forall t | t in db.tokens :: 0 < t <= db.lastTokenId && TokenOk(db.tokens[t], db.groups, hash))
    && (forall g | g in db.groups :: 0 < g <= db.lastGroupId)
    && (forall u | u in db.users :: 0 < u <= db.lastUserId)
    && (forall h | h in db.sessions :: db.sessions[h].userId in db.users)
  }

  predicate TokenOk(t: Token, groups: map<int, Group>, hash: string -> string) {
    && t.userId > 0
    && (t.status == 0 || t.status == 1)
    && (t.status == 1 ==> t.plain.Some? && t.plain.value != "" && hash(t.plain.value) == t.hash)
    && (t.status == 0 ==> t.plain == None)
    && (t.channelGroupId != 0 ==>
          t.channelGroupId > 0 && t.channelGroupId in groups && groups[t.channelGroupId].enabled)
  }

  /** No two token rows share a hash; holds as long as new raw tokens are fresh. */
  ghost predicate DistinctHashes(db: Db) {
    forall s, t | s in db.tokens && t in db.tokens && s != t :: db.tokens[s].hash != db.tokens[t].hash
  }

  ghost predicate FreshRaw(db: Db, hash: string -> string, raw: string) {
    forall t | t in db.tokens :: db.tokens[t].hash != hash(raw)
  }

  ghost predicate Injective(hash: string -> string) {
    forall a, b | hash(a) == hash(b) :: a == b
  }

  // ---------------------------------------------------------------------------------
  // Every operation keeps the invariant
  // ---------------------------------------------------------------------------------

  lemma CreateTokenKeeps(db: Db, hash: string -> string, userId: int, name: Option<string>, raw: string)
    requires TokenInv(db, hash)
    ensures var (db', id) := CreateToken(db, hash, userId, name, raw);
            && TokenInv(db', hash)
            && (DistinctHashes(db) && FreshRaw(db, hash, raw) ==> DistinctHashes(db'))
            && (id.Some? && id.value > 0 ==> id.value !in db.tokens && id.value in db'.tokens)
  {
  }

  lemma RotateTokenKeeps(db: Db, hash: string -> string, userId: int, tokenId: int, raw: string)
    requires TokenInv(db, hash)
    ensures var db' := RotateToken(db, hash, userId, tokenId, raw).0;
            TokenInv(db', hash) && (DistinctHashes(db) && FreshRaw(db, hash, raw) ==> DistinctHashes(db'))
  {
  }

  lemma RevokeTokenKeeps(db: Db, hash: string -> string, userId: int, tokenId: int)
    requires TokenInv(db, hash)
    ensures var db' := RevokeToken(db, userId, tokenId);
            TokenInv(db', hash) && (DistinctHashes(db) ==> DistinctHashes(db'))
  {
  }

  lemma DeleteTokenKeeps(db: Db, hash: string -> string, userId: int, tokenId: int)
    requires TokenInv(db, hash)
    ensures var db' := DeleteToken(db, userId, tokenId).0;
            TokenInv(db', hash) && (DistinctHashes(db) ==> DistinctHashes(db'))
  {
  }

  lemma SetTokenGroupKeeps(db: Db, hash: string -> string, userId: int, tokenId: int, groupId: int)
    requires TokenInv(db, hash)
    ensures var db' := SetTokenGroup(db, userId, tokenId, groupId).0;
            TokenInv(db', hash) && (DistinctHashes(db) ==> DistinctHashes(db'))
  {
  }

  lemma CreateGroupKeeps(db: Db, hash: string -> string, group: Group)
    requires TokenInv(db, hash)
    ensures var db' := CreateGroup(db, group);
            TokenInv(db', hash) && (DistinctHashes(db) ==> DistinctHashes(db'))
  {
  }

  lemma UpdateGroupKeeps(db: Db, hash: string -> string, groupId: int, name: string, description: string, m: real)
    requires TokenInv(db, hash)
    ensures var db' := UpdateGroup(db, groupId, name, description, m).0;
            TokenInv(db', hash) && (DistinctHashes(db) ==> DistinctHashes(db'))
  {
  }

  lemma DeleteGroupKeeps(db: Db, hash: string -> string, groupId: int)
    requires TokenInv(db, hash)
    ensures var db' := DeleteGroup(db, groupId).0;
            TokenInv(db', hash) && (DistinctHashes(db) ==> DistinctHashes(db'))
  {
  }

  lemma UsersKeep(db: Db, hash: string -> string, userId: int, user: User)
    requires TokenInv(db, hash)
    ensures TokenInv(CreateUser(db, user), hash)
    ensures TokenInv(UpdateUser(db, userId, user).0, hash)
  {
  }

  lemma DebitKeeps(db: Db, hash: string -> string, userId: int, delta: real)
    requires TokenInv(db, hash)
    ensures TokenInv(Debit(db, userId, delta).0, hash)
  {
    hide RoundMicros;
  }

  lemma DeleteUserKeeps(db: Db, hash: string -> string, userId: int)
    requires TokenInv(db, hash)
    ensures TokenInv(DeleteUser(db, userId).0, hash)
    ensures DistinctHashes(db) ==> DistinctHashes(DeleteUser(db, userId).0)
  {
    hide Without;
  }

  lemma SessionsKeep(db: Db, hash: string -> string, tokenHash: string, session: Session)
    requires TokenInv(db, hash)
    ensures session.userId in db.users ==> TokenInv(CreateSession(db, tokenHash, session), hash)
    ensures TokenInv(DeleteSession(db, tokenHash), hash)
  {
  }

  /** A deleted user leaves no token, no session and no row behind. */
  lemma DeleteUserLeavesNothing(db: Db, userId: int)
    requires userId in db.users
    ensures var d := DeleteUser(db, userId).0;
            && userId !in d.users && TokensOf(d, userId) == {}
            && (forall i | 0 <= i < |d.rows| :: d.rows[i].userId != userId)
            && (forall k | k in d.totals :: k.userId != userId)
            && (forall h | h in d.sessions :: d.sessions[h].userId != userId)
  {
    var m := DropTokens(db, TokensOf(db, userId));
    WithoutDrops(m.rows, (r: Request) => r.userId == userId);
  }

  /** A deleted token takes its rows and totals along and nothing else. */
  lemma DeleteTokenExactly(db: Db, userId: int, tokenId: int)
    requires userId > 0 && tokenId > 0 && tokenId in db.tokens && db.tokens[tokenId].userId == userId
    ensures var d := DeleteToken(db, userId, tokenId).0;
            && d == db.(tokens := db.tokens - {tokenId}, rows := d.rows, totals := d.totals)
            && multiset(d.rows) <= multiset(db.rows)
            && (forall r :: r in d.rows <==> r in db.rows && r.tokenId != tokenId)
            && (forall k :: k in d.totals <==> k in db.totals && k.tokenId != tokenId)
            && (forall k | k in d.totals :: d.totals[k] == db.totals[k])
  {
    WithoutKeeps(db.rows, (r: Request) => r.tokenId == tokenId);
  }

  /** A deleted user takes along what is filed under the user or a token of the user, and nothing else. */
  lemma DeleteUserExactly(db: Db, userId: int)
    requires userId in db.users
    ensures var d := DeleteUser(db, userId).0;
            && (d.users == db.users - {userId} && d.groups == db.groups)
            && (forall t :: t in d.tokens <==> t in db.tokens && db.tokens[t].userId != userId)
            && (forall t | t in d.tokens :: d.tokens[t] == db.tokens[t])
            && (forall h :: h in d.sessions <==> h in db.sessions && db.sessions[h].userId != userId)
            && (forall h | h in d.sessions :: d.sessions[h] == db.sessions[h])
            && (forall r :: r in d.rows <==> r in db.rows && r.userId != userId && !Owns(db, userId, r.tokenId))
            && (forall k :: k in d.totals <==> k in db.totals && k.userId != userId && !Owns(db, userId, k.tokenId))
            && (forall k | k in d.totals :: d.totals[k] == db.totals[k])
  {
    hide Without;
    var ids := TokensOf(db, userId);
    WithoutKeeps(db.rows, (r: Request) => r.tokenId in ids);
    WithoutKeeps(DropTokens(db, ids).rows, (r: Request) => r.userId == userId);
  }

  lemma {:induction false} WithoutKeeps(rows: seq<Request>, drop: Request -> bool)
    ensures multiset(Without(rows, drop)) <= multiset(rows)
    ensures forall r :: r in Without(rows, drop) <==> r in rows && !drop(r)
  {
    if rows != [] {
      var init, last := rows[..|rows| - 1], rows[|rows| - 1];
      WithoutKeeps(init, drop);
      assert rows == init + [last];
    }
  }

  lemma {:induction false} WithoutDrops(rows: seq<Request>, drop: Request -> bool)
    ensures forall i | 0 <= i < |Without(rows, drop)| :: !drop(Without(rows, drop)[i])
  {
    if rows != [] {
      WithoutDrops(rows[..|rows| - 1], drop);
    }
  }

  // ---------------------------------------------------------------------------------
  // Resolving a raw token
  // ---------------------------------------------------------------------------------

  /** The rows the join of `resolve_token_channel_group_by_raw_token` selects; it returns any one. */
  predicate Selected(db: Db, hash: string -> string, raw: string, t: int) {
    && t in db.tokens && db.tokens[t].hash == hash(raw) && db.tokens[t].status == 1
    && db.tokens[t].userId in db.users && db.users[db.tokens[t].userId].status == 1
  }

  datatype Resolved = Resolved(userId: int, tokenId: int, channelGroupId: int)

  /** The possible answers for one raw token. */
  ghost predicate MayResolve(db: Db, hash: string -> string, raw: string, r: Option<Resolved>) {
    if raw == "" || !exists t :: Selected(db, hash, raw, t) then r == None
    else
      exists t :: Selected(db, hash, raw, t) &&
        r == if db.tokens[t].channelGroupId <= 0 then None
             else Some(Resolved(db.tokens[t].userId, t, db.tokens[t].channelGroupId))
  }

  /** `reveal_user_token` */
  function Reveal(db: Db, userId: int, tokenId: int): Option<string> {
    if userId <= 0 || tokenId <= 0 || !Owns(db, userId, tokenId) || db.tokens[tokenId].status != 1 then None
    else if db.tokens[tokenId].plain == Some("") then None
    else db.tokens[tokenId].plain
  }

  /** The token whose owner can reveal `raw`, of an active user, bound to a group. */
  ghost predicate Usable(db: Db, raw: string, r: Resolved) {
    && Reveal(db, r.userId, r.tokenId) == Some(raw)
    && r.userId in db.users && db.users[r.userId].status == 1
    && db.tokens[r.tokenId].channelGroupId == r.channelGroupId != 0
  }

  /** With an injective hash, a raw token resolves exactly when it is the revealable plaintext
      of an active token of an active user with a bound group, and to that token, whichever
      row the query picks; the group it names exists and is enabled. */
  lemma ResolvesExactly(db: Db, hash: string -> string, raw: string, r: Option<Resolved>)
    requires TokenInv(db, hash) && DistinctHashes(db) && Injective(hash)
    requires MayResolve(db, hash, raw, r)
    ensures forall x :: r == Some(x) <==> Usable(db, raw, x)
    ensures r.Some? ==> r.value.channelGroupId in db.groups && db.groups[r.value.channelGroupId].enabled
  {
    forall x | Usable(db, raw, x) ensures r == Some(x) {
      assert Selected(db, hash, raw, x.tokenId);
    }
  }

  /** The life of a raw token: issued, its owner reads it and it resolves to nothing; once bound it
      resolves to that token and group; and from then on exactly while the user's status is active. */
  lemma IssuedTokenResolves(db: Db, hash: string -> string, userId: int, name: Option<string>, raw: string, groupId: int,
                            user: User, r1: Option<Resolved>, r2: Option<Resolved>, r3: Option<Resolved>)
    requires TokenInv(db, hash) && DistinctHashes(db) && Injective(hash) && FreshRaw(db, hash, raw)
    requires userId > 0 && raw != "" && userId in db.users && db.users[userId].status == 1
    requires groupId in db.groups && db.groups[groupId].enabled
    ensures
      var (issued, id) := CreateToken(db, hash, userId, name, raw);
      && id.Some? && id.value !in db.tokens && Reveal(issued, userId, id.value) == Some(raw)
      && (MayResolve(issued, hash, raw, r1) ==> r1 == None)
      && var (bound, ok) := SetTokenGroup(issued, userId, id.value, groupId);
         && ok == Some(true) && Reveal(bound, userId, id.value) == Some(raw)
         && (MayResolve(bound, hash, raw, r2) ==> r2 == Some(Resolved(userId, id.value, groupId)))
         && (MayResolve(UpdateUser(bound, userId, user).0, hash, raw, r3) ==>
               r3 == if user.status == 1 then Some(Resolved(userId, id.value, groupId)) else None)
  {
    var (issued, id) := CreateToken(db, hash, userId, name, raw);
    assert issued.tokens[id.value].hash == hash(raw);
    var bound := SetTokenGroup(issued, userId, id.value, groupId).0;
    assert forall t | t in bound.tokens && bound.tokens[t].hash == hash(raw) :: t == id.value;
    assert Selected(bound, hash, raw, id.value);
    var written := UpdateUser(bound, userId, user).0;
    assert Selected(written, hash, raw, id.value) <==> user.status == 1;
  }

  // ---------------------------------------------------------------------------------
  // Raw tokens out of use
  // ---------------------------------------------------------------------------------

  /** No active token has this plaintext. */
  ghost predicate OutOfUse(db: Db, hash: string -> string, raw: string) {
    forall t | t in db.tokens && db.tokens[t].status == 1 :: db.tokens[t].hash != hash(raw)
  }

  /** Only this token may have this plaintext, and it is bound to no group. */
  ghost predicate Unbound(db: Db, hash: string -> string, raw: string, tokenId: int) {
    forall t | t in db.tokens && db.tokens[t].status == 1 && db.tokens[t].hash == hash(raw) ::
      t == tokenId && db.tokens[t].channelGroupId == 0
  }

  lemma OutOfUseResolvesNothing(db: Db, hash: string -> string, raw: string, tokenId: int, r: Option<Resolved>)
    requires OutOfUse(db, hash, raw) || Unbound(db, hash, raw, tokenId)
    requires MayResolve(db, hash, raw, r)
    ensures r == None
  {
  }

  /** The four ways a raw token its owner could reveal goes out of use; a rotation reveals the
      new one. */
  lemma GoesOutOfUse(db: Db, hash: string -> string, userId: int, tokenId: int, old': string, raw: string)
    requires TokenInv(db, hash) && DistinctHashes(db) && Injective(hash)
    requires Reveal(db, userId, tokenId) == Some(old')
    ensures raw != "" && raw != old' ==>
              var db' := RotateToken(db, hash, userId, tokenId, raw).0;
              OutOfUse(db', hash, old') && Reveal(db', userId, tokenId) == Some(raw)
    ensures OutOfUse(RevokeToken(db, userId, tokenId), hash, old')
    ensures OutOfUse(DeleteToken(db, userId, tokenId).0, hash, old')
    ensures userId in db.users ==> OutOfUse(DeleteUser(db, userId).0, hash, old')
    ensures Unbound(DeleteGroup(db, db.tokens[tokenId].channelGroupId).0, hash, old', tokenId)
  {
    var t := db.tokens[tokenId];
    assert t.plain == Some(old') && t.hash == hash(old') && t.status == 1;
    forall s | s in db.tokens && db.tokens[s].hash == hash(old') ensures s == tokenId {
    }
    if t.channelGroupId != 0 {
      assert t.channelGroupId in db.groups;
    }
  }
}
