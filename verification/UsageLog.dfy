/** `request_totals` as a materialised aggregate of `requests`
    (`backend/src/request/request.cpp`, `backend/src/users/tokens.cpp`, `backend/src/users/users.cpp`). */
module UsageLog {
  import opened Text
  import opened Database

  // ---------------------------------------------------------------------------------
  // The aggregate a total stands for
  // ---------------------------------------------------------------------------------

  datatype Column = Input | Output | CacheRead | CacheCreation | Latency

  function Cell(c: Column, r: Request): nat {
    match c
    case Input => Clamp(r.inputTokens)
    case Output => Clamp(r.outputTokens)
    case CacheRead => Clamp(r.cacheReadTokens)
    case CacheCreation => Clamp(r.cacheCreation5mTokens) + Clamp(r.cacheCreation1hTokens)
    case Latency => Clamp(r.firstTokenLatencyMs)
  }

  function Sum(c: Column, rows: seq<Request>): nat {
    if rows == [] then 0 else Sum(c, rows[..|rows| - 1]) + Cell(c, rows[|rows| - 1])
  }

  function SumUsd(rows: seq<Request>): real {
    if rows == [] then 0.0 else SumUsd(rows[..|rows| - 1]) + rows[|rows| - 1].usd
  }

  predicate HasKey(r: Request, key: TotalId) {
    r.userId == key.userId && r.tokenId == key.tokenId && |r.time| >= 10 && r.time[..10] == key.date
  }

  function RowsOf(rows: seq<Request>, key: TotalId): seq<Request> {
    if rows == [] then []
    else
      RowsOf(rows[..|rows| - 1], key) + (if HasKey(rows[|rows| - 1], key) then [rows[|rows| - 1]] else [])
  }

  /** One row of `SELECT COUNT, SUM ... GROUP BY user, token, day`. */
  function Aggregate(rows: seq<Request>): Total {
    Total(
      |rows|,
      Sum(Input, rows), Sum(Output, rows), Sum(CacheRead, rows), Sum(CacheCreation, rows),
      Sum(Input, rows) + Sum(Output, rows) + Sum(CacheRead, rows) + Sum(CacheCreation, rows),
      SumUsd(rows),
      Sum(Latency, rows))
  }

  /** A total exists exactly for the keys that have rows, and is their aggregate. */
  ghost predicate Consistent(rows: seq<Request>, totals: map<TotalId, Total>) {
    && (forall k :: k in totals <==> RowsOf(rows, k) != [])
    && (forall k | k in totals :: totals[k] == Aggregate(RowsOf(rows, k)))
  }

  ghost predicate WellFormedRows(rows: seq<Request>) {
    && (forall i | 0 <= i < |rows| :: rows[i].id > 0 && rows[i].userId > 0 && rows[i].tokenId > 0)
    && (forall i, j | 0 <= i < j < |rows| :: rows[i].id != rows[j].id)
  }

  ghost predicate LogInv(db: Db) {
    Consistent(db.rows, db.totals) && WellFormedRows(db.rows)
  }

  // ---------------------------------------------------------------------------------
  // Commit
  // ---------------------------------------------------------------------------------

  /** The date a total is filed under is the day of the stored time. */
  predicate DateAgrees(s: Request) {
    if |s.time| >= 10 then s.date == s.time[..10] else s.date == ""
  }

  lemma RowsOfSnoc(rows: seq<Request>, r: Request, key: TotalId)
    ensures RowsOf(rows + [r], key) == RowsOf(rows, key) + (if HasKey(r, key) then [r] else [])
  {
    assert (rows + [r])[..|rows|] == rows;
  }

  lemma AggregateSnoc(rows: seq<Request>, r: Request)
    ensures Aggregate(rows + [r]) == Accumulate(Aggregate(rows), r)
  {
    assert (rows + [r])[..|rows|] == rows;
  }

  /** Filing a new row keeps table and log in step exactly when its date agrees. */
  lemma FileRow(rows: seq<Request>, totals: map<TotalId, Total>, s: Request)
    requires Consistent(rows, totals) && s.userId > 0 && s.tokenId > 0
    ensures Consistent(rows + [s], ApplyTotal(totals, s)) <==> DateAgrees(s)
  {
    hide RowsOf, Aggregate, Accumulate;
    var rows', totals' := rows + [s], ApplyTotal(totals, s);
    var filed := TotalId(s.userId, s.tokenId, s.date);
    assert Aggregate([]) == ZeroTotal() by {
      AggregateNone();
    }
    if DateAgrees(s) {
      forall k ensures k in totals' <==> RowsOf(rows', k) != []
               ensures k in totals' ==> totals'[k] == Aggregate(RowsOf(rows', k)) {
        RowsOfSnoc(rows, s, k);
        AggregateSnoc(RowsOf(rows, k), s);
        assert HasKey(s, k) <==> |s.time| >= 10 && k == filed;
        assert RowsOf(rows, k) + [] == RowsOf(rows, k);
        assert s.date == "" ==> |s.time| < 10;
        assert RowsOf(rows, k) == [] ==> k !in totals;
      }
    } else if s.date != "" {
      RowsOfSnoc(rows, s, filed);
      assert !HasKey(s, filed);
      CountAfterFiling(rows, totals, s);
    } else {
      var day := TotalId(s.userId, s.tokenId, s.time[..10]);
      RowsOfSnoc(rows, s, day);
      CountWithoutFiling(rows, totals, s);
    }
  }

  lemma AggregateNone()
    ensures Aggregate([]) == ZeroTotal()
  {
  }

  lemma CountAfterFiling(rows: seq<Request>, totals: map<TotalId, Total>, s: Request)
    requires Consistent(rows, totals) && s.userId > 0 && s.tokenId > 0 && s.date != ""
    requires RowsOf(rows + [s], TotalId(s.userId, s.tokenId, s.date)) == RowsOf(rows, TotalId(s.userId, s.tokenId, s.date))
    ensures !Consistent(rows + [s], ApplyTotal(totals, s))
  {
    var key := TotalId(s.userId, s.tokenId, s.date);
    var total := ApplyTotal(totals, s)[key];
    assert key in totals ==> totals[key].requests == |RowsOf(rows, key)|;
    assert total.requests == |RowsOf(rows, key)| + 1;
  }

  lemma CountWithoutFiling(rows: seq<Request>, totals: map<TotalId, Total>, s: Request)
    requires Consistent(rows, totals) && s.date == "" && |s.time| >= 10
    requires var day := TotalId(s.userId, s.tokenId, s.time[..10]);
             RowsOf(rows + [s], day) == RowsOf(rows, day) + [s]
    ensures !Consistent(rows + [s], ApplyTotal(totals, s))
  {
    var day := TotalId(s.userId, s.tokenId, s.time[..10]);
    assert day in totals ==> totals[day].requests == |RowsOf(rows, day)|;
    assert |RowsOf(rows + [s], day)| == |RowsOf(rows, day)| + 1;
  }

  /** One total moved by one request: each column by the request's own count, if that is positive. */
  ghost predicate Grown(total: Total, total': Total, r: Request) {
    var plus := (column: int, n: int) => if n > 0 then column + n else column;
    && total'.requests == total.requests + 1
    && total'.inputTokens == plus(total.inputTokens, r.inputTokens)
    && total'.outputTokens == plus(total.outputTokens, r.outputTokens)
    && total'.cacheReadTokens == plus(total.cacheReadTokens, r.cacheReadTokens)
    && total'.cacheCreationTokens ==
         plus(plus(total.cacheCreationTokens, r.cacheCreation5mTokens), r.cacheCreation1hTokens)
    && total'.firstTokenLatencySum == plus(total.firstTokenLatencySum, r.firstTokenLatencyMs)
    && total'.usd == total.usd + r.usd
  }

  /** What a commit of a new id stores. The row is the request with its time, the first of the two
      times given that is not blank, or now, and its day; the total of that day grows by it. */
  lemma CommitStores(db: Db, r: Request, finishedAt: string, now: string)
    requires r.id > 0 && r.userId > 0 && r.tokenId > 0 && !HasId(db.rows, r.id)
    ensures
      var db' := Commit(db, r, finishedAt, now).0;
      && |db'.rows| == |db.rows| + 1 && db'.rows[..|db.rows|] == db.rows
      && db' == db.(rows := db'.rows, totals := db'.totals)
      && var row := db'.rows[|db.rows|];
         && row == r.(time := row.time, date := row.date)
         && row.time == (if Trim(r.time) != "" then Trim(r.time)
                         else if Trim(finishedAt) != "" then Trim(finishedAt) else now)
         && row.date == (if r.date == "" && |row.time| >= 10 then row.time[..10] else r.date)
         && if row.date == "" then db'.totals == db.totals
            else
              var key := TotalId(r.userId, r.tokenId, row.date);
              && db'.totals.Keys == db.totals.Keys + {key}
              && (forall k | k in db.totals && k != key :: db'.totals[k] == db.totals[k])
              && Grown(if key in db.totals then db.totals[key] else Total(0, 0, 0, 0, 0, 0, 0.0, 0), db'.totals[key], row)
  {
    hide Trim;
  }

  /** `Request::commit`: a duplicate id or a bad id changes nothing; a new row keeps the
      invariant exactly when the date it is filed under is the day of its stored time. */
  lemma CommitKeepsLog(db: Db, r: Request, finishedAt: string, now: string)
    requires LogInv(db)
    ensures var (db', ok) := Commit(db, r, finishedAt, now);
            && ok == (r.id > 0 && r.userId > 0 && r.tokenId > 0)
            && (ok && !HasId(db.rows, r.id) ==>
                  (LogInv(db') <==> DateAgrees(Stamped(r, finishedAt, now))) && HasId(db'.rows, r.id))
            && (!ok || HasId(db.rows, r.id) ==> db' == db)
  {
    hide Consistent, ApplyTotal;
    var (db', ok) := Commit(db, r, finishedAt, now);
    if ok && !HasId(db.rows, r.id) {
      var s := Stamped(r, finishedAt, now);
      FileRow(db.rows, db.totals, s);
      assert db'.rows[|db.rows|].id == r.id;
    }
  }

  /** `commit_proxy_usage` cuts the date from the raw time; for a time without surrounding
      space that agrees unless the time is non-empty and too short to hold a date. */
  lemma ProxyDateAgrees(r: Request, now: string)
    requires Trim(r.time) == r.time
    requires r.date == if |r.time| >= 10 then r.time[..10] else r.time
    ensures DateAgrees(Stamped(r, r.time, now)) <==> r.time == "" || |r.time| >= 10
  {
  }

  /** A time that is only a year: the total is filed under a day no row has. */
  lemma ShortTimeMisfiled(rows: seq<Request>, totals: map<TotalId, Total>, r: Request, now: string)
    requires Consistent(rows, totals) && r.userId > 0 && r.tokenId > 0
    requires r.time == r.date == "2025"
    ensures !Consistent(rows + [Stamped(r, r.time, now)], ApplyTotal(totals, Stamped(r, r.time, now)))
  {
    hide Consistent, Stamped;
    TrimFixed("2025");
    ProxyDateAgrees(r, now);
    StampedKeeps(r, now);
    FileRow(rows, totals, Stamped(r, r.time, now));
  }

  lemma StampedKeeps(r: Request, now: string)
    ensures Stamped(r, r.time, now).userId == r.userId && Stamped(r, r.time, now).tokenId == r.tokenId
  {
  }

  // ---------------------------------------------------------------------------------
  // Deletions
  // ---------------------------------------------------------------------------------

  lemma {:induction false} WithoutRowsOf(rows: seq<Request>, drop: Request -> bool, key: TotalId, gone: bool)
    requires forall r :: HasKey(r, key) ==> drop(r) == gone
    ensures RowsOf(Without(rows, drop), key) == if gone then [] else RowsOf(rows, key)
  {
    if rows != [] {
      var init, last := rows[..|rows| - 1], rows[|rows| - 1];
      WithoutRowsOf(init, drop, key, gone);
      if !drop(last) {
        RowsOfSnoc(Without(init, drop), last, key);
      } else {
        assert Without(rows, drop) == Without(init, drop);
      }
    }
  }

  lemma HasIdSnoc(rows: seq<Request>, last: Request)
    ensures forall id :: HasId(rows + [last], id) <==> HasId(rows, id) || last.id == id
  {
    assert (rows + [last])[|rows|] == last;
    forall id | HasId(rows, id) ensures HasId(rows + [last], id) {
      var i :| 0 <= i < |rows| && rows[i].id == id;
      assert (rows + [last])[i].id == id;
    }
  }

  lemma WellFormedSnoc(rows: seq<Request>, last: Request)
    ensures WellFormedRows(rows + [last]) <==>
              && WellFormedRows(rows) && !HasId(rows, last.id)
              && last.id > 0 && last.userId > 0 && last.tokenId > 0
  {
    var all := rows + [last];
    assert all[|rows|] == last && all[..|rows|] == rows;
    assert forall i | 0 <= i < |rows| :: all[i] == rows[i];
  }

  /** Dropping rows leaves well-formed rows and brings no new id. */
  lemma {:induction false} WithoutWellFormed(rows: seq<Request>, drop: Request -> bool)
    requires WellFormedRows(rows)
    ensures WellFormedRows(Without(rows, drop))
    ensures forall id :: HasId(Without(rows, drop), id) ==> HasId(rows, id)
  {
    if rows != [] {
      var init, last := rows[..|rows| - 1], rows[|rows| - 1];
      var kept := Without(init, drop);
      assert Without(rows, drop) == if drop(last) then kept else kept + [last];
      assert init + [last] == rows;
      hide WellFormedRows, HasId, Without;
      WellFormedSnoc(init, last);
      WithoutWellFormed(init, drop);
      WellFormedSnoc(kept, last);
      HasIdSnoc(init, last);
      HasIdSnoc(kept, last);
    }
  }

  lemma DropTokensKeepsLog(db: Db, ids: set<int>)
    requires LogInv(db)
    ensures LogInv(DropTokens(db, ids))
  {
    hide RowsOf, Aggregate, WellFormedRows;
    var drop := (r: Request) => r.tokenId in ids;
    var d := DropTokens(db, ids);
    assert d.rows == Without(db.rows, drop);
    WithoutWellFormed(db.rows, drop);
    forall k ensures RowsOf(d.rows, k) == if k.tokenId in ids then [] else RowsOf(db.rows, k) {
      WithoutRowsOf(db.rows, drop, k, k.tokenId in ids);
    }
  }

  lemma DeleteTokenKeepsLog(db: Db, userId: int, tokenId: int)
    requires LogInv(db)
    ensures LogInv(DeleteToken(db, userId, tokenId).0)
  {
    hide RowsOf, Aggregate, WellFormedRows;
    var drop := (r: Request) => r.tokenId == tokenId;
    var d := DropToken(db, tokenId);
    assert d.rows == Without(db.rows, drop);
    WithoutWellFormed(db.rows, drop);
    forall k ensures RowsOf(d.rows, k) == if k.tokenId == tokenId then [] else RowsOf(db.rows, k) {
      WithoutRowsOf(db.rows, drop, k, k.tokenId == tokenId);
    }
  }

  lemma DeleteUserKeepsLog(db: Db, userId: int)
    requires LogInv(db)
    ensures LogInv(DeleteUser(db, userId).0)
  {
    hide RowsOf, Aggregate, WellFormedRows;
    if userId in db.users {
      var drop := (r: Request) => r.userId == userId;
      DropTokensKeepsLog(db, TokensOf(db, userId));
      var m, d := DropTokens(db, TokensOf(db, userId)), DeleteUser(db, userId).0;
      assert d.rows == Without(m.rows, drop);
      WithoutWellFormed(m.rows, drop);
      forall k ensures RowsOf(d.rows, k) == if k.userId == userId then [] else RowsOf(m.rows, k) {
        WithoutRowsOf(m.rows, drop, k, k.userId == userId);
      }
    }
  }

  /** What the invariant says column by column: `tokens` is the sum of the four token columns. */
  lemma TotalColumns(db: Db, k: TotalId)
    requires LogInv(db) && k in db.totals
    ensures var t := db.totals[k];
            && t.tokens == t.inputTokens + t.outputTokens + t.cacheReadTokens + t.cacheCreationTokens
            && t.requests == |RowsOf(db.rows, k)| > 0
  {
  }
}
