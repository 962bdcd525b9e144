/** Every run of store operations: what holds in each reachable state of users, tokens, groups,
    requests and totals, with proxied requests anywhere between their debit and their record. */
module SystemRuns {
  import opened Text
  import opened Database
  import opened UsageLog
  import opened TokenRules
  import opened Ledger
  import opened Store

  datatype System = System(db: Db, accounts: map<int, Account>, books: Books)

  datatype Op =
    | AddUser(profile: Profile)
    | WriteUser(userId: int, read: User, amount: real) // an account or admin handler: read, then write back
    | RemoveUser(userId: int)
    | AddSession(tokenHash: string, session: Session)
    | RemoveSession(tokenHash: string)
    | AddToken(userId: int, name: Option<string>, raw: string)
    | Rotate(userId: int, tokenId: int, raw: string)
    | Revoke(userId: int, tokenId: int)
    | RemoveToken(userId: int, tokenId: int)
    | Bind(userId: int, tokenId: int, groupId: int)
    | AddGroup(group: Group)
    | WriteGroup(groupId: int, title: string, description: string, priceMultiplier: real)
    | RemoveGroup(groupId: int)
    | Pay(call: ProxyCall) // the first transaction of commit_proxy_usage
    | Record(i: nat, now: string) // the second, for any request paid for so far

  const START := System(EMPTY, map[], Books(0.0, [], 0.0))

  function ErasedByToken(db: Db, tokenId: int): real {
    SumUsd(Dropped(db.rows, (r: Request) => r.tokenId == tokenId))
  }

  function ErasedByUser(db: Db, userId: int): real {
    var ids := TokensOf(db, userId);
    SumUsd(Dropped(db.rows, (r: Request) => r.tokenId in ids)) +
    SumUsd(Dropped(DropTokens(db, ids).rows, (r: Request) => r.userId == userId))
  }

  function Apply(s: System, op: Op, hash: string -> string): System {
    match op
    case AddUser(profile) =>
      s.(db := CreateUser(s.db, NewUser(profile)), accounts := s.accounts[s.db.lastUserId + 1 := Account(0.0, 0.0, 0)])
    case WriteUser(u, read, amount) =>
      if u !in s.accounts then s
      else
        s.(db := UpdateUser(s.db, u, read.(balanceUsd := read.balanceUsd + amount)).0,
           accounts := s.accounts[u := Credited(s.accounts[u], amount)])
    case RemoveUser(u) =>
      if u !in s.db.users then s
      else
        s.(db := DeleteUser(s.db, u).0,
           accounts := s.accounts - {u},
           books := s.books.(erased := s.books.erased + ErasedByUser(s.db, u)))
    case AddSession(h, session) => s.(db := CreateSession(s.db, h, session))
    case RemoveSession(h) => s.(db := DeleteSession(s.db, h))
    case AddToken(u, name, raw) => s.(db := CreateToken(s.db, hash, u, name, raw).0)
    case Rotate(u, t, raw) => s.(db := RotateToken(s.db, hash, u, t, raw).0)
    case Revoke(u, t) => s.(db := RevokeToken(s.db, u, t))
    case RemoveToken(u, t) =>
      var (db, ok) := DeleteToken(s.db, u, t);
      if ok then s.(db := db, books := s.books.(erased := s.books.erased + ErasedByToken(s.db, t))) else s
    case Bind(u, t, g) => s.(db := SetTokenGroup(s.db, u, t, g).0)
    case AddGroup(group) => s.(db := CreateGroup(s.db, group))
    case WriteGroup(g, name, description, m) => s.(db := UpdateGroup(s.db, g, name, description, m).0)
    case RemoveGroup(g) => s.(db := DeleteGroup(s.db, g).0)
    case Pay(call) =>
      if !Billable(call) then s
      else
        var u := call.request.userId;
        var (db, ok) := Debit(s.db, u, CostOf(call));
        if !ok then s
        else
          System(
            db,
            if CostOf(call) > 0.0 && u in s.accounts then s.accounts[u := Debited(s.accounts[u], CostOf(call))]
            else s.accounts,
            Charge(s.books, Priced(call)))
    case Record(i, now) =>
      if i >= |s.books.inflight| then s
      else
        var r := s.books.inflight[i];
        s.(db := Commit(s.db, r, r.time, now).0, books := Recorded(s.books, i))
  }

  /** What the surroundings guarantee: handlers are not interleaved with other writes to the
      same user and credit whole millionths, raw tokens are new, request ids are new, times
      are dates, costs are not negative, and sessions are opened for users. */
  ghost predicate Allowed(s: System, op: Op, hash: string -> string) {
    match op
    case WriteUser(u, read, amount) =>
      amount >= 0.0 && IsMicros(amount) && (u in s.db.users ==> read.balanceUsd == s.db.users[u].balanceUsd)
    case AddSession(_, session) => session.userId in s.db.users
    case AddToken(_, _, raw) => FreshRaw(s.db, hash, raw)
    case Rotate(_, _, raw) => FreshRaw(s.db, hash, raw)
    case Pay(call) =>
      && !HasId(s.db.rows, call.request.id) && !HasId(s.books.inflight, call.request.id)
      && Trim(call.request.time) == call.request.time && |call.request.time| >= 10
      && CostOf(call) >= 0.0
    case _ => true
  }

  ghost predicate InflightOk(rows: seq<Request>, inflight: seq<Request>) {
    && WellFormedRows(inflight)
    && (forall i | 0 <= i < |inflight| :: Dated(inflight[i]) && !HasId(rows, inflight[i].id))
  }

  predicate Dated(r: Request) {
    Trim(r.time) == r.time && |r.time| >= 10 && r.date == r.time[..10]
  }

  ghost predicate SystemInv(s: System, hash: string -> string) {
    && TokenInv(s.db, hash) && DistinctHashes(s.db)
    && LogInv(s.db)
    && BalanceInv(s.db.users, s.accounts)
    && Conserved(s.db.rows, s.books)
    && InflightOk(s.db.rows, s.books.inflight)
  }

  // ---------------------------------------------------------------------------------
  // One step
  // ---------------------------------------------------------------------------------

  lemma FewerRows(rows: seq<Request>, drop: Request -> bool, inflight: seq<Request>)
    requires WellFormedRows(rows) && InflightOk(rows, inflight)
    ensures InflightOk(Without(rows, drop), inflight)
  {
    WithoutWellFormed(rows, drop);
  }

  lemma TokenOps(s: System, op: Op, hash: string -> string)
    requires SystemInv(s, hash) && Allowed(s, op, hash)
    requires op.AddToken? || op.Rotate? || op.Revoke? || op.Bind? || op.AddGroup? || op.WriteGroup? || op.RemoveGroup?
    ensures SystemInv(Apply(s, op, hash), hash)
  {
    hide TokenInv, DistinctHashes, FreshRaw, Consistent, WellFormedRows, BalanceInv, Conserved, InflightOk;
    match op {
      case AddToken(u, name, raw) => CreateTokenKeeps(s.db, hash, u, name, raw);
      case Rotate(u, t, raw) => RotateTokenKeeps(s.db, hash, u, t, raw);
      case Revoke(u, t) => RevokeTokenKeeps(s.db, hash, u, t);
      case Bind(u, t, g) => SetTokenGroupKeeps(s.db, hash, u, t, g);
      case AddGroup(group) => CreateGroupKeeps(s.db, hash, group);
      case WriteGroup(g, name, description, m) =>
        UpdateGroupKeeps(s.db, hash, g, name, description, m);
      case RemoveGroup(g) => DeleteGroupKeeps(s.db, hash, g);
    }
  }

  lemma RemoveTokenStep(s: System, op: Op, hash: string -> string)
    requires SystemInv(s, hash) && op.RemoveToken?
    ensures SystemInv(Apply(s, op, hash), hash)
  {
    hide TokenInv, DistinctHashes, Consistent, WellFormedRows, BalanceInv, InflightOk, SumUsd, Without;
    TokenRules.DeleteTokenKeeps(s.db, hash, op.userId, op.tokenId);
    DeleteTokenKeepsLog(s.db, op.userId, op.tokenId);
    SumUsdSplit(s.db.rows, (r: Request) => r.tokenId == op.tokenId);
    FewerRows(s.db.rows, (r: Request) => r.tokenId == op.tokenId, s.books.inflight);
  }

  lemma RemoveUserStep(s: System, op: Op, hash: string -> string)
    requires SystemInv(s, hash) && op.RemoveUser?
    ensures SystemInv(Apply(s, op, hash), hash)
  {
    hide TokenInv, DistinctHashes, Consistent, BalanceInv, InflightOk, SumUsd, Without, WellFormedRows;
    var u, ids := op.userId, TokensOf(s.db, op.userId);
    DeleteUserKeeps(s.db, hash, u);
    DeleteUserKeepsLog(s.db, u);
    DropTokensKeepsLog(s.db, ids);
    var rest := DropTokens(s.db, ids).rows;
    SumUsdSplit(s.db.rows, (r: Request) => r.tokenId in ids);
    SumUsdSplit(rest, (r: Request) => r.userId == u);
    FewerRows(s.db.rows, (r: Request) => r.tokenId in ids, s.books.inflight);
    FewerRows(rest, (r: Request) => r.userId == u, s.books.inflight);
    FewerUsers(s.db.users, s.accounts, u);
  }

  lemma FewerUsers(users: map<int, User>, accounts: map<int, Account>, u: int)
    requires BalanceInv(users, accounts)
    ensures BalanceInv(users - {u}, accounts - {u})
  {
  }

  lemma UserOps(s: System, op: Op, hash: string -> string)
    requires SystemInv(s, hash) && Allowed(s, op, hash) && (op.AddUser? || op.WriteUser? || op.AddSession? || op.RemoveSession?)
    ensures SystemInv(Apply(s, op, hash), hash)
  {
    hide TokenInv, Consistent, WellFormedRows, InflightOk, Conserved;
    match op {
      case AddUser(profile) =>
        UsersKeep(s.db, hash, 0, NewUser(profile));
        WholeMicros(0);
      case WriteUser(u, read, amount) =>
        if u in s.db.users {
          UsersKeep(s.db, hash, u, read.(balanceUsd := read.balanceUsd + amount));
          WriteBackKeepsBalance(s.db, s.accounts, u, read, amount);
        }
      case AddSession(h, session) => SessionsKeep(s.db, hash, h, session);
      case RemoveSession(h) => SessionsKeep(s.db, hash, h, Session(0, ""));
    }
  }

  lemma PayStep(s: System, op: Op, hash: string -> string)
    requires SystemInv(s, hash) && Allowed(s, op, hash) && op.Pay?
    ensures SystemInv(Apply(s, op, hash), hash)
  {
    hide TokenInv, Consistent, BalanceInv, Conserved, CostOf, RoundMicros, Trim;
    var call := op.call;
    DebitKeepsBalance(s.db, s.accounts, call.request.userId, CostOf(call));
    DebitKeeps(s.db, hash, call.request.userId, CostOf(call));
    ChargeConserves(s.db.rows, s.books, Priced(call));
    SameKeys(s.db.users, s.accounts);
    if Billable(call) {
      MoreInflight(s.db.rows, s.books.inflight, call);
    }
  }

  lemma SameKeys(users: map<int, User>, accounts: map<int, Account>)
    requires BalanceInv(users, accounts)
    ensures users.Keys == accounts.Keys
  {
  }

  lemma MoreInflight(rows: seq<Request>, inflight: seq<Request>, call: ProxyCall)
    requires InflightOk(rows, inflight) && Billable(call)
    requires !HasId(rows, call.request.id) && !HasId(inflight, call.request.id)
    requires Trim(call.request.time) == call.request.time && |call.request.time| >= 10
    ensures InflightOk(rows, inflight + [Priced(call)])
  {
    hide Trim, CostOf;
  }

  lemma RecordStep(s: System, op: Op, hash: string -> string)
    requires SystemInv(s, hash) && op.Record?
    ensures SystemInv(Apply(s, op, hash), hash)
  {
    hide TokenInv, Consistent, BalanceInv, Conserved, Trim, ApplyTotal;
    if op.i < |s.books.inflight| {
      var r := s.books.inflight[op.i];
      assert Dated(r);
      CommitKeepsLog(s.db, r, r.time, op.now);
      ProxyDateAgrees(r, op.now);
      RecordConserves(s.db, s.books, op.i, r.time, op.now);
      SameTokens(s.db, Commit(s.db, r, r.time, op.now).0, hash);
      LessInflight(s.db.rows, s.books.inflight, op.i, Stamped(r, r.time, op.now));
    }
  }

  lemma SameTokens(db: Db, db': Db, hash: string -> string)
    requires TokenInv(db, hash) && DistinctHashes(db)
    requires db' == db.(rows := db'.rows, totals := db'.totals)
    ensures TokenInv(db', hash) && DistinctHashes(db')
  {
  }

  lemma LessInflight(rows: seq<Request>, inflight: seq<Request>, i: nat, filed: Request)
    requires InflightOk(rows, inflight) && i < |inflight| && filed.id == inflight[i].id
    ensures InflightOk(rows + [filed], inflight[..i] + inflight[i + 1..])
  {
    hide Trim;
    var rest := inflight[..i] + inflight[i + 1..];
    forall j | 0 <= j < |rest|
      ensures rest[j] == inflight[if j < i then j else j + 1] && !HasId(rows + [filed], rest[j].id) {
      var k := if j < i then j else j + 1;
      assert rest[j] == inflight[k];
      assert inflight[k].id != inflight[i].id;
      assert !HasId(rows, inflight[k].id);
    }
  }

  lemma StepKeepsSystem(s: System, op: Op, hash: string -> string)
    requires SystemInv(s, hash) && Allowed(s, op, hash)
    ensures SystemInv(Apply(s, op, hash), hash)
  {
    hide SystemInv, Allowed, Apply;
    match op {
      case AddUser(_) => UserOps(s, op, hash);
      case AddSession(_, _) => UserOps(s, op, hash);
      case RemoveSession(_) => UserOps(s, op, hash);
      case WriteUser(_, _, _) => UserOps(s, op, hash);
      case RemoveUser(_) => RemoveUserStep(s, op, hash);
      case RemoveToken(_, _) => RemoveTokenStep(s, op, hash);
      case Pay(_) => PayStep(s, op, hash);
      case Record(_, _) => RecordStep(s, op, hash);
      case _ => TokenOps(s, op, hash);
    }
  }

  /** `commit_proxy_usage` without interruption is the payment followed by its record; a refused
      payment leaves nothing to record. */
  lemma CommitUsageIsPayThenRecord(s: System, call: ProxyCall, now: string, hash: string -> string)
    requires SystemInv(s, hash) && Allowed(s, Pay(call), hash)
    ensures
      var paid := Apply(s, Pay(call), hash);
      var (db, ok) := CommitUsage(s.db, call, now);
      && (ok <==> |paid.books.inflight| == |s.books.inflight| + 1)
      && (!ok ==> db == s.db == paid.db)
      && (ok ==> Apply(paid, Record(|s.books.inflight|, now), hash).db == db)
  {
    hide TokenInv, LogInv, Conserved, InflightOk, Commit, CostOf, RoundMicros;
    DebitKeepsBalance(s.db, s.accounts, call.request.userId, CostOf(call));
    CommitAlwaysSucceeds(Debit(s.db, call.request.userId, CostOf(call)).0, Priced(call), call.request.time, now);
  }

  lemma CommitAlwaysSucceeds(db: Db, r: Request, finishedAt: string, now: string)
    ensures r.id > 0 && r.userId > 0 && r.tokenId > 0 ==> Commit(db, r, finishedAt, now).1
  {
  }

  // ---------------------------------------------------------------------------------
  // Every run
  // ---------------------------------------------------------------------------------

  function Run(s: System, ops: seq<Op>, hash: string -> string): System
    decreases |ops|
  {
    if ops == [] then s else Run(Apply(s, ops[0], hash), ops[1..], hash)
  }

  ghost predicate AllowedRun(s: System, ops: seq<Op>, hash: string -> string)
    decreases |ops|
  {
    ops == [] || (Allowed(s, ops[0], hash) && AllowedRun(Apply(s, ops[0], hash), ops[1..], hash))
  }

  lemma {:induction false} RunKeepsSystem(s: System, ops: seq<Op>, hash: string -> string)
    requires SystemInv(s, hash) && AllowedRun(s, ops, hash)
    ensures SystemInv(Run(s, ops, hash), hash)
    decreases |ops|
  {
    hide SystemInv, Allowed, Apply;
    if ops != [] {
      StepKeepsSystem(s, ops[0], hash);
      RunKeepsSystem(Apply(s, ops[0], hash), ops[1..], hash);
    }
  }

  lemma StartHolds(hash: string -> string)
    ensures SystemInv(START, hash)
  {
    assert RowsOf([], TotalId(0, 0, "")) == [];
  }

  /** Totals, balances, money and tokens in every reachable state at once. */
  lemma Reachable(ops: seq<Op>, hash: string -> string)
    requires AllowedRun(START, ops, hash)
    ensures
      var s := Run(START, ops, hash);
      && (forall k :: k in s.db.totals <==> RowsOf(s.db.rows, k) != [])
      && (forall k | k in s.db.totals :: s.db.totals[k] == Aggregate(RowsOf(s.db.rows, k)))
      && (forall u | u in s.db.users ::
            u in s.accounts && s.db.users[u].balanceUsd >= 0.0 &&
            Abs(s.db.users[u].balanceUsd - (s.accounts[u].credited - s.accounts[u].debited))
              <= s.accounts[u].debits as real * HALF_MICRO)
      && s.books.charged == SumUsd(s.db.rows) + s.books.erased + SumUsd(s.books.inflight)
      && TokenInv(s.db, hash) && DistinctHashes(s.db)
  {
    hide SystemInv, Run, AllowedRun;
    StartHolds(hash);
    RunKeepsSystem(START, ops, hash);
    Meaning(Run(START, ops, hash), hash);
  }

  lemma Meaning(s: System, hash: string -> string)
    requires SystemInv(s, hash)
    ensures
      && (forall k :: k in s.db.totals <==> RowsOf(s.db.rows, k) != [])
      && (forall k | k in s.db.totals :: s.db.totals[k] == Aggregate(RowsOf(s.db.rows, k)))
      && (forall u | u in s.db.users ::
            u in s.accounts && s.db.users[u].balanceUsd >= 0.0 &&
            Abs(s.db.users[u].balanceUsd - (s.accounts[u].credited - s.accounts[u].debited))
              <= s.accounts[u].debits as real * HALF_MICRO)
      && s.books.charged == SumUsd(s.db.rows) + s.books.erased + SumUsd(s.books.inflight)
      && TokenInv(s.db, hash) && DistinctHashes(s.db)
  {
    hide TokenInv, DistinctHashes, RowsOf, Aggregate, SumUsd, InflightOk, WellFormedRows;
    forall u | u in s.db.users
      ensures u in s.accounts && AccountOk(s.db.users[u].balanceUsd, s.accounts[u]) {
      assert u in s.db.users.Keys;
    }
  }

  // ---------------------------------------------------------------------------------
  // Raw tokens out of use
  // ---------------------------------------------------------------------------------

  predicate Issues(op: Op, raw: string) {
    match op
    case AddToken(_, _, x) => x == raw
    case Rotate(_, _, x) => x == raw
    case _ => false
  }

  ghost predicate NeverIssues(ops: seq<Op>, raw: string) {
    forall i | 0 <= i < |ops| :: !Issues(ops[i], raw)
  }

  lemma StaysOutOfUse(s: System, op: Op, hash: string -> string, raw: string)
    requires OutOfUse(s.db, hash, raw) && Injective(hash) && !Issues(op, raw)
    ensures OutOfUse(Apply(s, op, hash).db, hash, raw)
  {
    hide Without, RoundMicros, CostOf, Stamped;
  }

  lemma {:induction false} OutOfUseForever(s: System, ops: seq<Op>, hash: string -> string, raw: string)
    requires OutOfUse(s.db, hash, raw) && Injective(hash) && NeverIssues(ops, raw)
    ensures OutOfUse(Run(s, ops, hash).db, hash, raw)
    decreases |ops|
  {
    hide OutOfUse, Injective, Apply;
    if ops != [] {
      assert !Issues(ops[0], raw);
      StaysOutOfUse(s, ops[0], hash, raw);
      OutOfUseForever(Apply(s, ops[0], hash), ops[1..], hash, raw);
    }
  }

  lemma StaysUnbound(s: System, op: Op, hash: string -> string, raw: string, tokenId: int)
    requires Unbound(s.db, hash, raw, tokenId) && Injective(hash) && !Issues(op, raw)
    requires op.Bind? ==> op.tokenId != tokenId
    ensures Unbound(Apply(s, op, hash).db, hash, raw, tokenId)
  {
    hide Without, RoundMicros, CostOf, Stamped;
  }

  lemma {:induction false} UnboundForever(s: System, ops: seq<Op>, hash: string -> string, raw: string, tokenId: int)
    requires Unbound(s.db, hash, raw, tokenId) && Injective(hash) && NeverIssues(ops, raw)
    requires forall i | 0 <= i < |ops| && ops[i].Bind? :: ops[i].tokenId != tokenId
    ensures Unbound(Run(s, ops, hash).db, hash, raw, tokenId)
    decreases |ops|
  {
    hide Unbound, Injective, Apply;
    if ops != [] {
      assert !Issues(ops[0], raw);
      StaysUnbound(s, ops[0], hash, raw, tokenId);
      UnboundForever(Apply(s, ops[0], hash), ops[1..], hash, raw, tokenId);
    }
  }

  /** A raw token its owner could reveal never resolves again after it was rotated out, revoked,
      deleted, or its user was, whatever happens later, unless the same raw token is issued anew. */
  lemma RetiredForever(s: System, op: Op, ops: seq<Op>, hash: string -> string, userId: int, tokenId: int,
                       old': string, r: Option<Resolved>)
    requires SystemInv(s, hash) && Injective(hash) && Reveal(s.db, userId, tokenId) == Some(old')
    requires
      || (op.Rotate? && op == Rotate(userId, tokenId, op.raw) && op.raw != "" && op.raw != old')
      || op == Revoke(userId, tokenId)
      || op == RemoveToken(userId, tokenId)
      || (op == RemoveUser(userId) && userId in s.db.users)
    requires NeverIssues(ops, old')
    requires MayResolve(Run(Apply(s, op, hash), ops, hash).db, hash, old', r)
    ensures r == None
  {
    hide TokenInv, DistinctHashes, Injective, OutOfUse, LogInv, BalanceInv, Conserved, InflightOk, MayResolve, NeverIssues;
    hide DeleteUser, RevokeToken, DeleteToken, RotateToken;
    var raw := if op.Rotate? then op.raw else "";
    GoesOutOfUse(s.db, hash, userId, tokenId, old', raw);
    ReadableToken(s.db, userId, tokenId, old');
    DeleteTokenGoes(s.db, userId, tokenId);
    var s' := Apply(s, op, hash);
    assert OutOfUse(s'.db, hash, old');
    OutOfUseForever(s', ops, hash, old');
    OutOfUseResolvesNothing(Run(s', ops, hash).db, hash, old', tokenId, r);
  }

  lemma ReadableToken(db: Db, userId: int, tokenId: int, raw: string)
    requires Reveal(db, userId, tokenId) == Some(raw)
    ensures Owns(db, userId, tokenId) && userId > 0 && tokenId > 0
  {
  }

  lemma DeleteTokenGoes(db: Db, userId: int, tokenId: int)
    requires Owns(db, userId, tokenId) && userId > 0 && tokenId > 0
    ensures DeleteToken(db, userId, tokenId).1
  {
  }

  /** After its group was deleted it resolves again only once it is bound anew. */
  lemma UnboundResolvesNothing(s: System, ops: seq<Op>, hash: string -> string, userId: int, tokenId: int,
                               old': string, r: Option<Resolved>)
    requires SystemInv(s, hash) && Injective(hash) && Reveal(s.db, userId, tokenId) == Some(old')
    requires NeverIssues(ops, old') && forall i | 0 <= i < |ops| && ops[i].Bind? :: ops[i].tokenId != tokenId
    requires var s' := Apply(s, RemoveGroup(s.db.tokens[tokenId].channelGroupId), hash);
             MayResolve(Run(s', ops, hash).db, hash, old', r)
    ensures r == None
  {
    hide TokenInv, DistinctHashes, Injective, Unbound, LogInv, BalanceInv, Conserved, InflightOk, MayResolve, DeleteGroup;
    hide NeverIssues;
    GoesOutOfUse(s.db, hash, userId, tokenId, old', "");
    var s' := Apply(s, RemoveGroup(s.db.tokens[tokenId].channelGroupId), hash);
    UnboundForever(s', ops, hash, old', tokenId);
    OutOfUseResolvesNothing(Run(s', ops, hash).db, hash, old', tokenId, r);
  }
}
