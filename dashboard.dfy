/**
 * The routes of waste_logger_app/main.py that compute something: the dashboard (`/`),
 * the personal log (`/log`), the public leaderboard (`/public`) and the append done by
 * `/classify`. Template rendering and `round(..., 2)` are not modelled.
 */
module Dashboard {
  import opened Common
  import opened WasteLog
  import opened Summary
  import Sorting
  import Carbon
  import Auth

  // ---- `/`: the dashboard ----

  /** `db.query(User).filter(User.id == user_id).first()`, as a position. */
  function FindById(users: seq<Auth.User>, id: int): (r: Option<nat>)
    ensures r.None? <==> forall i :: 0 <= i < |users| ==> users[i].id != id
    ensures r.Some? ==> r.value < |users| && users[r.value].id == id
                        && forall j :: 0 <= j < r.value ==> users[j].id != id
  {
    if users == [] then None
    else if users[0].id == id then Some(0)
    else
      assert forall j :: 1 <= j < |users| ==> users[j] == users[1..][j - 1];
      match FindById(users[1..], id)
      case None => None
      case Some(k) => Some(k + 1)
  }

  /** The username `index` shows: none when `user_id` is falsy (0) or names no user. */
  function ResolveUsername(users: seq<Auth.User>, userId: int): (r: Option<string>)
    ensures r.Some? <==> userId != 0 && exists i :: 0 <= i < |users| && users[i].id == userId
    ensures r.Some? ==> exists i :: 0 <= i < |users| && users[i].id == userId && users[i].username == r.value
                                  && forall j :: 0 <= j < i ==> users[j].id != userId
  {
    if userId == 0 then None
    else match FindById(users, userId)
      case None => None
      case Some(i) => Some(users[i].username)
  }

  /**
   * `filter(WasteLog.username == username).order_by(WasteLog.timestamp)`. A missing
   * username compares as `IS NULL`, which no stored entry satisfies; entries logged at
   * the same instant stay in store order.
   */
  function DashboardLogs(store: seq<Entry>, username: Option<string>): seq<Entry> {
    match username
    case None => []
    case Some(name) => Sorting.Sort(LogsOf(store, name), LoggedBefore)
  }

  lemma LoggedBeforeIsStrictWeakOrder()
    ensures Sorting.StrictWeakOrder(LoggedBefore)
  {
  }

  /** The dashboard's list is the user's entries, all of them, in timestamp order. */
  lemma DashboardLogsAreTheUsers(store: seq<Entry>, name: string)
    ensures var logs := DashboardLogs(store, Some(name));
      && multiset(logs) == multiset(LogsOf(store, name))
      && (forall e :: e in logs <==> e in store && e.username == name)
      && forall i, j :: 0 <= i < j < |logs| ==> !TimestampBefore(logs[j].timestamp, logs[i].timestamp)
  {
    var own := LogsOf(store, name);
    var logs := DashboardLogs(store, Some(name));
    assert logs == Sorting.Sort(own, LoggedBefore);
    Sorting.SortPermutes(own, LoggedBefore);
    LoggedBeforeIsStrictWeakOrder();
    Sorting.SortSorted(own, LoggedBefore);
    forall i, j | 0 <= i < j < |logs| ensures !TimestampBefore(logs[j].timestamp, logs[i].timestamp) {
      assert !LoggedBefore(logs[j], logs[i]);
    }
    forall e ensures e in logs <==> e in store && e.username == name {
      assert e in logs <==> e in multiset(logs);
      assert e in own <==> e in multiset(own);
    }
  }

  datatype DashboardView = DashboardView(
    username: Option<string>,
    totals: Totals,
    recentLogs: seq<Entry>,
    co2Trend: map<Date, real>)

  /**
   * `index`: totals, the five most recent entries and the per-day trend of the
   * logged-in user. The trend loop raises on an entry without an estimate.
   */
  method Index(users: seq<Auth.User>, store: seq<Entry>, userId: int)
    returns (r: Result<DashboardView, TrendError>)
    ensures var logs := DashboardLogs(store, ResolveUsername(users, userId));
      && (r.Ok? <==> AllEstimated(logs))
      && (r.Ok? ==>
        && r.value.username == ResolveUsername(users, userId)
        && r.value.totals == Summarize(logs)
        && r.value.recentLogs == Recent(logs)
        && IsTrendOf(r.value.co2Trend, logs)
        && SumValues(r.value.co2Trend) == r.value.totals.totalCo2)
  {
    var username := ResolveUsername(users, userId);
    var logs := DashboardLogs(store, username);
    var trend := BuildTrend(logs);
    if trend.Err? {
      return Err(trend.error);
    }
    r := Ok(DashboardView(username, Summarize(logs), Recent(logs), trend.value));
  }

  // ---- `/log`: the personal log ----

  datatype LogView = LogView(logs: seq<Entry>, totals: Totals)

  /** `view_log`: the session user's entries in store order, with the same totals formula as `/`. */
  function ViewLog(store: seq<Entry>, sessionUsername: Option<string>): (r: LogView)
    ensures forall e :: e in r.logs ==> Some(e.username) == sessionUsername
    ensures sessionUsername.Some? ==> forall e :: e in store && e.username == sessionUsername.value ==> e in r.logs
  {
    var logs := match sessionUsername
      case None => []
      case Some(name) => LogsOf(store, name);
    LogView(logs, Summarize(logs))
  }

  /** `/log` and `/` report the same totals for the same user, although only `/` orders by time. */
  lemma ViewLogAgreesWithIndex(store: seq<Entry>, username: Option<string>)
    ensures ViewLog(store, username).totals == Summarize(DashboardLogs(store, username))
  {
    if username.Some? {
      Sorting.SortPermutes(LogsOf(store, username.value), LoggedBefore);
      SummarizeOrderIndependent(LogsOf(store, username.value), DashboardLogs(store, username));
    }
  }

  // ---- `/public`: the leaderboard ----

  datatype BoardRow = BoardRow(username: string, totalCo2: real, recyclablePercent: real, totalEntries: nat)

  /** The row built for one user. */
  function RowFor(u: Auth.User, store: seq<Entry>): BoardRow {
    var logs := LogsOf(store, u.username);
    BoardRow(u.username, TotalCo2(logs), PercentRecyclable(logs), |logs|)
  }

  /** The rows before sorting: one per user, in the users' order. */
  function BuiltRows(users: seq<Auth.User>, store: seq<Entry>): (r: seq<BoardRow>)
    ensures |r| == |users|
    ensures forall i :: 0 <= i < |users| ==> r[i] == RowFor(users[i], store)
  {
    if users == [] then []
    else
      var rest := BuiltRows(users[1..], store);
      var r := [RowFor(users[0], store)] + rest;
      assert forall i :: 1 <= i < |users| ==> r[i] == rest[i - 1] && users[i] == users[1..][i - 1];
      r
  }

  /** The sort key `(total_co2, -recyclable_percent)`, compared with Python's tuple `<`. */
  predicate RanksAbove(a: BoardRow, b: BoardRow) {
    a.totalCo2 < b.totalCo2 || (a.totalCo2 == b.totalCo2 && a.recyclablePercent > b.recyclablePercent)
  }

  lemma RanksAboveIsStrictWeakOrder()
    ensures Sorting.StrictWeakOrder(RanksAbove)
  {
  }

  /**
   * `public_dashboard`: one row per user, appended in the users' order, then
   * `leaderboard.sort(...)`.
   */
  method PublicDashboard(users: seq<Auth.User>, store: seq<Entry>) returns (board: seq<BoardRow>)
    ensures board == Sorting.Sort(BuiltRows(users, store), RanksAbove)
  {
    board := [];
    for i := 0 to |users|
      invariant |board| == i
      invariant forall k :: 0 <= k < i ==> board[k] == RowFor(users[k], store)
    {
      var u := users[i];
      var logs := LogsOf(store, u.username);
      board := board + [BoardRow(u.username, TotalCo2(logs), PercentRecyclable(logs), |logs|)];
    }
    assert board == BuiltRows(users, store);
    board := Sorting.Sort(board, RanksAbove);
  }

  /**
   * The sorted leaderboard: the built rows, each exactly once; CO2 ascending, equal CO2
   * by recyclable percentage descending; rows that tie on both keep the users' order.
   */
  lemma LeaderboardOrdered(users: seq<Auth.User>, store: seq<Entry>, t: BoardRow)
    ensures var board := Sorting.Sort(BuiltRows(users, store), RanksAbove);
      && |board| == |users|
      && multiset(board) == multiset(BuiltRows(users, store))
      && (forall i, j :: 0 <= i < j < |board| ==>
            board[i].totalCo2 < board[j].totalCo2
            || (board[i].totalCo2 == board[j].totalCo2 && board[i].recyclablePercent >= board[j].recyclablePercent))
      && Sorting.TiesWith(board, t, RanksAbove) == Sorting.TiesWith(BuiltRows(users, store), t, RanksAbove)
  {
    var built := BuiltRows(users, store);
    RanksAboveIsStrictWeakOrder();
    Sorting.SortPermutes(built, RanksAbove);
    Sorting.SortLength(built, RanksAbove);
    Sorting.SortSorted(built, RanksAbove);
    Sorting.SortStable(built, t, RanksAbove);
  }

  /** Totals 5, 2, 2 with percentages 10, 90, 50 rank as (2, 90), (2, 50), (5, 10). */
  lemma LeaderboardExample()
    ensures var a, b, c := BoardRow("a", 5.0, 10.0, 1), BoardRow("b", 2.0, 90.0, 1), BoardRow("c", 2.0, 50.0, 1);
      Sorting.Sort([a, b, c], RanksAbove) == [b, c, a]
  {
    var a, b, c := BoardRow("a", 5.0, 10.0, 1), BoardRow("b", 2.0, 90.0, 1), BoardRow("c", 2.0, 50.0, 1);
    assert [a, b, c][..2] == [a, b];
    assert [a, b][..1] == [a];
    assert [a][..0] == [];
    assert Sorting.Sort([a], RanksAbove) == [a];
    assert Sorting.Insert(b, [a], RanksAbove) == [b, a] by {
      assert [a][..0] == [];
    }
    assert Sorting.Sort([a, b], RanksAbove) == [b, a];
    assert Sorting.Insert(c, [b, a], RanksAbove) == [b, c, a] by {
      assert [b, a][..1] == [b];
      assert Sorting.Insert(c, [b], RanksAbove) == [b, c];
    }
  }

  // ---- `/classify`: the log append ----

  /** The `waste_logs` table. Ids are the autoincrement primary key. */
  class LogStore {
    var entries: seq<Entry>
    var nextId: nat

    /** Every id is below the next one handed out, so ids are distinct. */
    ghost predicate Valid()
      reads this
    {
      forall i :: 0 <= i < |entries| ==> entries[i].id < nextId
    }

    constructor ()
      ensures Valid() && entries == [] && nextId == 1
    {
      entries := [];
      nextId := 1;
    }

    /**
     * The part of `classify_image` after the image is decoded: the classifier's label
     * and confidence, the table's impact for that label, and the session's username
     * (or "guest"), appended as exactly one new entry stamped `now`.
     */
    method Classify(table: seq<Carbon.Row>, session: Auth.Session, itemLabel: string, confidence: real,
                    now: Timestamp, filename: string)
      returns (entry: Entry)
      modifies this
      ensures entries == old(entries) + [entry]
      ensures nextId == old(nextId) + 1 && entry.id == old(nextId)
      ensures entry.itemLabel == itemLabel && entry.confidence == confidence
      ensures var impact := Carbon.EstimateImpact(itemLabel, table);
        entry.material == impact.material && entry.recyclable == Some(impact.recyclable)
        && entry.co2Estimate == Some(impact.co2Kg)
      ensures entry.username == session.username.GetOr(DefaultUsername)
      ensures entry.timestamp == now && entry.filename == filename
      ensures old(Valid()) ==> Valid()
    {
      var impact := Carbon.EstimateImpact(itemLabel, table);
      var username := session.username.GetOr(DefaultUsername);
      entry := Entry(nextId, itemLabel, confidence, impact.material, Some(impact.recyclable),
                     Some(impact.co2Kg), now, username, filename);
      entries := entries + [entry];
      nextId := nextId + 1;
    }
  }

  /** A new entry adds its estimate to its owner's total and leaves every other user's total alone. */
  lemma AppendUpdatesTotals(store: seq<Entry>, e: Entry, name: string)
    ensures TotalCo2(LogsOf(store + [e], name))
      == TotalCo2(LogsOf(store, name)) + (if e.username == name then Co2Contribution(e) else 0.0)
    ensures |LogsOf(store + [e], name)| == |LogsOf(store, name)| + (if e.username == name then 1 else 0)
  {
    LogsOfAppend(store, e, name);
    SumOfConcat(LogsOf(store, name), if e.username == name then [e] else [], Co2Contribution);
    assert [e][..0] == [];
  }
}
