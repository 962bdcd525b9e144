/** Nested store operations (`ScopedTransaction` in `backend/include/store/database.hpp`): the
    outermost scope alone decides what becomes durable. */
module TransactionScopes {
  import opened Text
  import opened Database
  import Ledger
  import R = SystemRuns
  import Store

  /** A run of store operations: writes, and calls that open a scope of their own and end with
      or without a commit. */
  datatype Script<!S> =
    | Done
    | Write(f: S -> S, next: Script<S>)
    | Call(body: Script<S>, commits: bool, next: Script<S>)

  /** All the writes in order, whatever is committed. */
  function Effect<S>(p: Script<S>, s: S): S {
    match p
    case Done => s
    case Write(f, next) => Effect(next, f(s))
    case Call(body, _, next) => Effect(next, Effect(body, s))
  }

  /** Outside any transaction there are only calls. */
  predicate OnlyCalls<S>(p: Script<S>) {
    match p
    case Done => true
    case Write(_, _) => false
    case Call(_, _, next) => OnlyCalls(next)
  }

  /** Each outermost call is all or nothing. */
  function Outcome<S>(p: Script<S>, s: S): S
    requires OnlyCalls(p)
  {
    match p
    case Done => s
    case Call(body, commits, next) => Outcome(next, if commits then Effect(body, s) else s)
  }

  // ---------------------------------------------------------------------------------
  // The code
  // ---------------------------------------------------------------------------------

  /** One database connection; `current` is the transaction of the thread, if any. */
  class Connection<!S(!new)> {
    var durable: S
    var current: Option<S>

    constructor (s: S)
      ensures durable == s && current == None
    {
      durable, current := s, None;
    }
  }

  class ScopedTransaction<!S(!new)> {
    const db: Connection<S>
    var owns: bool

    constructor (db: Connection<S>)
      modifies db
      ensures this.db == db && owns == old(db.current).None? && db.durable == old(db.durable)
      ensures db.current == if old(db.current).None? then Some(old(db.durable)) else old(db.current)
    {
      this.db := db;
      owns := db.current.None?;
      new;
      if owns {
        db.current := Some(db.durable);
      }
    }

    method Commit()
      requires owns ==> db.current.Some?
      modifies this, db
      ensures !owns
      ensures if old(owns) then db.durable == old(db.current).value && db.current == None
              else db.durable == old(db.durable) && db.current == old(db.current)
    {
      if owns {
        db.durable := db.current.value;
        db.current := None;
        owns := false;
      }
    }

    /** The destructor: an open transaction is rolled back. */
    method Close()
      modifies this, db
      ensures db.durable == old(db.durable) && db.current == if old(owns) then None else old(db.current)
    {
      if owns {
        db.current := None;
        owns := false;
      }
    }
  }

  /** What a script leaves behind: inside a transaction every write, and nothing durable yet;
      outside one, each outermost call whole or not at all. */
  method Execute<S(!new)>(db: Connection<S>, p: Script<S>)
    requires db.current.Some? || OnlyCalls(p)
    modifies db
    ensures old(db.current).Some? ==>
              db.durable == old(db.durable) && db.current == Some(Effect(p, old(db.current).value))
    ensures old(db.current).None? ==>
              db.current == None && db.durable == Outcome(p, old(db.durable))
    decreases p
  {
    match p {
      case Done =>
      case Write(f, next) =>
        db.current := Some(f(db.current.value));
        Execute(db, next);
      case Call(body, commits, next) =>
        var t := new ScopedTransaction<S>(db);
        Execute(db, body);
        if commits {
          t.Commit();
        }
        t.Close();
        Execute(db, next);
    }
  }

  // ---------------------------------------------------------------------------------
  // Inner commits do not matter
  // ---------------------------------------------------------------------------------

  /** The same writes under the same calls, committed or not. */
  ghost predicate SameWrites<S>(p: Script<S>, q: Script<S>) {
    match (p, q)
    case (Done, Done) => true
    case (Write(f, m), Write(g, n)) => f == g && SameWrites(m, n)
    case (Call(a, _, m), Call(b, _, n)) => SameWrites(a, b) && SameWrites(m, n)
    case _ => false
  }

  lemma {:induction false} InnerCommitsIgnored<S>(p: Script<S>, q: Script<S>, s: S)
    requires SameWrites(p, q)
    ensures Effect(p, s) == Effect(q, s)
    decreases p
  {
    match p {
      case Done =>
      case Write(f, m) => InnerCommitsIgnored(m, q.next, f(s));
      case Call(a, _, m) =>
        InnerCommitsIgnored(a, q.body, s);
        InnerCommitsIgnored(m, q.next, Effect(a, s));
    }
  }

  // ---------------------------------------------------------------------------------
  // Giving up
  // ---------------------------------------------------------------------------------

  predicate Writes<S>(p: Script<S>) {
    match p
    case Done => false
    case Write(_, _) => true
    case Call(body, _, next) => Writes(body) || Writes(next)
  }

  /** Every call that gives up without a commit does so before its first write. */
  predicate GivesUpClean<S>(p: Script<S>) {
    match p
    case Done => true
    case Write(_, next) => GivesUpClean(next)
    case Call(body, commits, next) => (commits || !Writes(body)) && GivesUpClean(body) && GivesUpClean(next)
  }

  /** Each call, however deep, counted whole if it commits and not at all if it gives up. */
  function Intended<S>(p: Script<S>, s: S): S {
    match p
    case Done => s
    case Write(f, next) => Intended(next, f(s))
    case Call(body, commits, next) => Intended(next, if commits then Intended(body, s) else s)
  }

  lemma {:induction false} NoWritesNoEffect<S>(p: Script<S>, s: S)
    requires !Writes(p)
    ensures Effect(p, s) == s
    decreases p
  {
    if p.Call? {
      NoWritesNoEffect(p.body, s);
      NoWritesNoEffect(p.next, s);
    }
  }

  /** Nesting is safe for such operations: the one outermost scope gives every call the meaning
      it would have with a transaction of its own. */
  lemma {:induction false} NestingIsSafe<S>(p: Script<S>, s: S)
    requires GivesUpClean(p)
    ensures Effect(p, s) == Intended(p, s)
    ensures OnlyCalls(p) ==> Outcome(p, s) == Intended(p, s)
    decreases p
  {
    match p {
      case Done =>
      case Write(f, next) => NestingIsSafe(next, f(s));
      case Call(body, commits, next) =>
        NestingIsSafe(body, s);
        NestingIsSafe(next, Effect(body, s));
        NestingIsSafe(next, s);
        if !commits {
          NoWritesNoEffect(body, s);
        }
    }
  }

  // ---------------------------------------------------------------------------------
  // Two operations that call others
  // ---------------------------------------------------------------------------------

  /** `Request::commit` with the nested `apply_total`, on a new row. */
  function CommitScript(row: Request, inner: bool): Script<Db> {
    Call(
      Write((db: Db) => db.(rows := db.rows + [row]),
      Call(Write((db: Db) => db.(totals := ApplyTotal(db.totals, row)), Done), inner, Done)),
      true, Done)
  }

  /** The row and its total become durable together, whether or not `apply_total` commits. */
  lemma CommitIsOneTransaction(db: Db, r: Request, finishedAt: string, now: string, inner: bool)
    requires r.id > 0 && r.userId > 0 && r.tokenId > 0 && !HasId(db.rows, r.id)
    ensures Outcome(CommitScript(Stamped(r, finishedAt, now), inner), db) == Commit(db, r, finishedAt, now).0
  {
    hide Stamped, ApplyTotal, HasId;
    var row := Stamped(r, finishedAt, now);
    var file := (db: Db) => db.(totals := ApplyTotal(db.totals, row));
    var filed := db.(rows := db.rows + [row]);
    assert Effect(Write(file, Done), filed) == Effect(Done, file(filed)) == file(filed);
    assert Effect(Call(Write(file, Done), inner, Done), filed) == Effect(Done, file(filed)) == file(filed);
  }

  /** The loop of `delete_user` over the tokens it listed. */
  function DeleteEach(ids: seq<int>, inner: bool, next: Script<Db>): Script<Db> {
    if ids == [] then next
    else Call(Write((db: Db) => DropToken(db, ids[0]), Done), inner, DeleteEach(ids[1..], inner, next))
  }

  function DeleteRest(userId: int): Script<Db> {
    Write((db: Db) => db.(rows := Without(db.rows, (r: Request) => r.userId == userId)),
    Write((db: Db) => db.(totals := map k | k in db.totals && k.userId != userId :: db.totals[k]),
    Write((db: Db) => db.(sessions := map h | h in db.sessions && db.sessions[h].userId != userId :: db.sessions[h]),
    Write((db: Db) => db.(users := db.users - {userId}), Done))))
  }

  function DeleteScript(userId: int, ids: seq<int>, inner: bool): Script<Db> {
    Call(DeleteEach(ids, inner, DeleteRest(userId)), true, Done)
  }

  lemma {:induction false} DeleteEachDrops(db: Db, gone: set<int>, ids: seq<int>, inner: bool, next: Script<Db>)
    ensures Effect(DeleteEach(ids, inner, next), DropTokens(db, gone)) ==
              Effect(next, DropTokens(db, gone + Store.Members(ids)))
    decreases |ids|
  {
    if ids == [] {
      assert gone + Store.Members(ids) == gone;
    } else {
      Store.DropOneMore(db, gone, ids[0]);
      DeleteEachDrops(db, gone + {ids[0]}, ids[1..], inner, next);
      assert gone + {ids[0]} + Store.Members(ids[1..]) == gone + Store.Members(ids) by {
        assert ids == [ids[0]] + ids[1..];
      }
    }
  }

  /** A user goes with all tokens, rows, totals and sessions in one transaction, in whatever order the
      tokens are listed. */
  lemma DeleteUserIsOneTransaction(db: Db, userId: int, ids: seq<int>, inner: bool)
    requires userId in db.users && Store.Members(ids) == TokensOf(db, userId)
    ensures OnlyCalls(DeleteScript(userId, ids, inner))
    ensures Outcome(DeleteScript(userId, ids, inner), db) == DeleteUser(db, userId).0
  {
    hide DropTokens, Without;
    Store.DropNothing(db);
    DeleteEachDrops(db, {}, ids, inner, DeleteRest(userId));
    assert {} + TokensOf(db, userId) == TokensOf(db, userId);
  }

  // ---------------------------------------------------------------------------------
  // Every store operation
  // ---------------------------------------------------------------------------------

  function One(f: Db -> Db): Script<Db> {
    Call(Write(f, Done), true, Done)
  }

  function Two(f: Db -> Db, g: Db -> Db): Script<Db> {
    Call(Write(f, Write(g, Done)), true, Done)
  }

  function Three(f: Db -> Db, g: Db -> Db, h: Db -> Db): Script<Db> {
    Call(Write(f, Write(g, Write(h, Done))), true, Done)
  }

  /** A scope left by an early return or an exception. */
  const GIVE_UP: Script<Db> := Call(Done, false, Done)

  /** The scopes and writes of one store operation: `Done` where it returns before it opens a
      scope, `GIVE_UP` where it leaves one. `ids` is the order in which a user's tokens are listed. */
  function ScriptOf(s: R.System, op: R.Op, hash: string -> string, ids: seq<int>): Script<Db> {
    var db := s.db;
    match op
    case AddUser(profile) => One((d: Db) => CreateUser(d, NewUser(profile)))
    case WriteUser(u, read, amount) =>
      if u !in db.users then GIVE_UP
      else One((d: Db) => UpdateUser(d, u, read.(balanceUsd := read.balanceUsd + amount)).0)
    case RemoveUser(u) => if u !in db.users then GIVE_UP else DeleteScript(u, ids, true)
    case AddSession(h, session) =>
      if session.userId <= 0 then Done
      else if h in db.sessions then GIVE_UP
      else One((d: Db) => d.(sessions := d.sessions[h := session]))
    case RemoveSession(h) => if h == "" then Done else One((d: Db) => d.(sessions := d.sessions - {h}))
    case AddToken(u, name, raw) =>
      if u <= 0 || raw == "" then Done else One((d: Db) => CreateToken(d, hash, u, name, raw).0)
    case Rotate(u, t, raw) =>
      if u <= 0 || t <= 0 || raw == "" then Done
      else if !Owns(db, u, t) then GIVE_UP
      else One((d: Db) => RotateToken(d, hash, u, t, raw).0)
    case Revoke(u, t) => if u <= 0 || t <= 0 then Done else One((d: Db) => RevokeToken(d, u, t))
    case RemoveToken(u, t) =>
      if u <= 0 || t <= 0 then Done
      else if !Owns(db, u, t) then GIVE_UP
      else
        Three(
          (d: Db) => d.(totals := map k | k in d.totals && k.tokenId != t :: d.totals[k]),
          (d: Db) => d.(rows := Without(d.rows, (r: Request) => r.tokenId == t)),
          (d: Db) => d.(tokens := d.tokens - {t}))
    case Bind(u, t, g) =>
      if u <= 0 || t <= 0 || g <= 0 then Done
      else if !Owns(db, u, t) || g !in db.groups || !db.groups[g].enabled then GIVE_UP
      else One((d: Db) => SetTokenGroup(d, u, t, g).0)
    case AddGroup(group) => One((d: Db) => CreateGroup(d, group))
    case WriteGroup(g, name, description, m) =>
      if g !in db.groups then GIVE_UP else One((d: Db) => UpdateGroup(d, g, name, description, m).0)
    case RemoveGroup(g) =>
      if g !in db.groups then GIVE_UP
      else
        Two((d: Db) => d.(tokens := Unbind(d.tokens, g)), (d: Db) => d.(groups := d.groups - {g}))
    case Pay(call) =>
      if !Store.Billable(call) || Store.CostOf(call) <= 0.0 then Done
      else if !Debit(db, call.request.userId, Store.CostOf(call)).1 then Call(Done, true, Done)
      else One((d: Db) => Debit(d, call.request.userId, Store.CostOf(call)).0)
    case Record(i, now) =>
      if i >= |s.books.inflight| then Done
      else
        var r := s.books.inflight[i];
        if r.id <= 0 || r.userId <= 0 || r.tokenId <= 0 then Done
        else if HasId(db.rows, r.id) then Call(Done, true, Done)
        else CommitScript(Stamped(r, r.time, now), true)
  }

  ghost predicate Means(p: Script<Db>, s: Db, s': Db) {
    OnlyCalls(p) && GivesUpClean(p) && Outcome(p, s) == Effect(p, s) == s'
  }

  lemma OneMeans(f: Db -> Db, s: Db)
    ensures Means(One(f), s, f(s))
  {
    assert Effect(Write(f, Done), s) == Effect(Done, f(s)) == f(s);
    assert Effect(One(f), s) == Effect(Done, f(s));
    assert GivesUpClean(Write(f, Done));
  }

  lemma TwoMean(f: Db -> Db, g: Db -> Db, s: Db)
    ensures Means(Two(f, g), s, g(f(s)))
  {
    var body := Write(f, Write(g, Done));
    assert Effect(body, s) == Effect(Write(g, Done), f(s)) == Effect(Done, g(f(s))) == g(f(s));
    assert Effect(Two(f, g), s) == Effect(Done, g(f(s)));
    assert GivesUpClean(Write(g, Done)) && GivesUpClean(body);
  }

  lemma ThreeMean(f: Db -> Db, g: Db -> Db, h: Db -> Db, s: Db)
    ensures Means(Three(f, g, h), s, h(g(f(s))))
  {
    var rest := Write(g, Write(h, Done));
    assert Effect(rest, f(s)) == Effect(Write(h, Done), g(f(s))) == Effect(Done, h(g(f(s)))) == h(g(f(s)));
    assert Effect(Write(f, rest), s) == Effect(rest, f(s));
    assert Effect(Three(f, g, h), s) == Effect(Done, h(g(f(s))));
    assert GivesUpClean(Write(h, Done)) && GivesUpClean(rest) && GivesUpClean(Write(f, rest));
  }

  lemma Simple(s: Db)
    ensures forall f :: Means(One(f), s, f(s))
    ensures forall f, g :: Means(Two(f, g), s, g(f(s)))
    ensures forall f, g, h :: Means(Three(f, g, h), s, h(g(f(s))))
    ensures Means(Done, s, s) && Means(GIVE_UP, s, s) && Means(Call(Done, true, Done), s, s)
  {
    hide One, Two, Three, Means;
    forall f ensures Means(One(f), s, f(s)) { OneMeans(f, s); }
    forall f, g ensures Means(Two(f, g), s, g(f(s))) { TwoMean(f, g, s); }
    forall f, g, h ensures Means(Three(f, g, h), s, h(g(f(s)))) { ThreeMean(f, g, h, s); }
    NothingMeans(s);
  }

  lemma NothingMeans(s: Db)
    ensures Means(Done, s, s) && Means(GIVE_UP, s, s) && Means(Call(Done, true, Done), s, s)
  {
    assert Effect(GIVE_UP, s) == s && Effect(Call(Done, true, Done), s) == s;
  }

  lemma {:induction false} DeleteEachClean(ids: seq<int>, next: Script<Db>)
    requires GivesUpClean(next)
    ensures GivesUpClean(DeleteEach(ids, true, next))
  {
    if ids != [] {
      DeleteEachClean(ids[1..], next);
    }
  }

  lemma CommitClean(row: Request)
    ensures OnlyCalls(CommitScript(row, true)) && GivesUpClean(CommitScript(row, true))
  {
    var file := CommitScript(row, true).body.next;
    assert GivesUpClean(file.body) && GivesUpClean(file) && GivesUpClean(CommitScript(row, true).body);
  }

  lemma RecordMeans(s: R.System, i: nat, now: string, hash: string -> string, ids: seq<int>)
    ensures Means(ScriptOf(s, R.Record(i, now), hash, ids), s.db, R.Apply(s, R.Record(i, now), hash).db)
  {
    hide Stamped, ApplyTotal, HasId, CommitScript, Outcome, Effect, GivesUpClean, Intended;
    NothingMeans(s.db);
    if i < |s.books.inflight| {
      var r := s.books.inflight[i];
      if r.id > 0 && r.userId > 0 && r.tokenId > 0 && !HasId(s.db.rows, r.id) {
        var row := Stamped(r, r.time, now);
        CommitClean(row);
        CommitIsOneTransaction(s.db, r, r.time, now, true);
        NestingIsSafe(CommitScript(row, true), s.db);
      }
    }
  }

  /** Every store operation gives up only before its first write, and means the same with a
      transaction of its own and inside a transaction of its caller. */
  lemma StoreOperationsNest(s: R.System, op: R.Op, hash: string -> string, ids: seq<int>)
    requires s.db.users.Keys == s.accounts.Keys
    requires op.RemoveUser? ==> Store.Members(ids) == TokensOf(s.db, op.userId)
    ensures OnlyCalls(ScriptOf(s, op, hash, ids)) && GivesUpClean(ScriptOf(s, op, hash, ids))
    ensures Outcome(ScriptOf(s, op, hash, ids), s.db) == R.Apply(s, op, hash).db
    ensures Effect(ScriptOf(s, op, hash, ids), s.db) == R.Apply(s, op, hash).db
  {
    hide ScriptOf, R.Apply, Means;
    match op {
      case RemoveUser(_) => RemoveUserScript(s, op, hash, ids);
      case Record(i, now) => RecordMeans(s, i, now, hash, ids);
      case RemoveToken(_, _) => RemoveTokenScript(s, op, hash, ids);
      case AddToken(_, _, _) => NewTokenScripts(s, op, hash, ids);
      case Rotate(_, _, _) => NewTokenScripts(s, op, hash, ids);
      case Revoke(_, _) => OldTokenScripts(s, op, hash, ids);
      case Bind(_, _, _) => OldTokenScripts(s, op, hash, ids);
      case AddGroup(_) => GroupScripts(s, op, hash, ids);
      case WriteGroup(_, _, _, _) => GroupScripts(s, op, hash, ids);
      case RemoveGroup(_) => GroupScripts(s, op, hash, ids);
      case _ => UserScripts(s, op, hash, ids);
    }
    MeansMeans(ScriptOf(s, op, hash, ids), s.db, R.Apply(s, op, hash).db);
  }

  lemma RemoveUserScript(s: R.System, op: R.Op, hash: string -> string, ids: seq<int>)
    requires op.RemoveUser? && Store.Members(ids) == TokensOf(s.db, op.userId)
    ensures Means(ScriptOf(s, op, hash, ids), s.db, R.Apply(s, op, hash).db)
  {
    hide Effect, Outcome, Intended, DeleteUser;
    var u := op.userId;
    if u in s.db.users {
      var p := DeleteScript(u, ids, true);
      assert GivesUpClean(p) by {
        DeleteEachClean(ids, DeleteRest(u));
      }
      DeleteUserIsOneTransaction(s.db, u, ids, true);
      NestingIsSafe(p, s.db);
    } else {
      NothingMeans(s.db);
    }
  }

  lemma NewTokenScripts(s: R.System, op: R.Op, hash: string -> string, ids: seq<int>)
    requires op.Rotate? || op.AddToken?
    ensures Means(ScriptOf(s, op, hash, ids), s.db, R.Apply(s, op, hash).db)
  {
    hide One, Two, Three, Means, CleanName;
    Simple(s.db);
  }

  lemma OldTokenScripts(s: R.System, op: R.Op, hash: string -> string, ids: seq<int>)
    requires op.Revoke? || op.Bind?
    ensures Means(ScriptOf(s, op, hash, ids), s.db, R.Apply(s, op, hash).db)
  {
    hide One, Two, Three, Means;
    Simple(s.db);
  }

  lemma RemoveTokenScript(s: R.System, op: R.Op, hash: string -> string, ids: seq<int>)
    requires op.RemoveToken?
    ensures Means(ScriptOf(s, op, hash, ids), s.db, R.Apply(s, op, hash).db)
  {
    hide One, Two, Three, Means, Without;
    Simple(s.db);
  }

  lemma UserScripts(s: R.System, op: R.Op, hash: string -> string, ids: seq<int>)
    requires s.db.users.Keys == s.accounts.Keys
    requires op.AddUser? || op.WriteUser? || op.AddSession? || op.RemoveSession? || op.Pay?
    ensures Means(ScriptOf(s, op, hash, ids), s.db, R.Apply(s, op, hash).db)
  {
    hide One, Two, Three, Means, RoundMicros, Store.CostOf;
    Simple(s.db);
  }

  lemma GroupScripts(s: R.System, op: R.Op, hash: string -> string, ids: seq<int>)
    requires op.AddGroup? || op.WriteGroup? || op.RemoveGroup?
    ensures Means(ScriptOf(s, op, hash, ids), s.db, R.Apply(s, op, hash).db)
  {
    hide One, Two, Three, Means;
    Simple(s.db);
  }

  lemma MeansMeans(p: Script<Db>, s: Db, s': Db)
    requires Means(p, s, s')
    ensures OnlyCalls(p) && GivesUpClean(p) && Outcome(p, s) == Effect(p, s) == s'
  {
  }
}
