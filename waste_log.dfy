/**
 * The `WasteLog` row of waste_logger_app/database.py, one per classification event.
 * `recyclable` and `co2_estimate` are nullable columns that the routes read by
 * truthiness, so they are optional here; every other column is always written.
 */
module WasteLog {
  import opened Common

  /** A calendar day: what `strftime("%Y-%m-%d")` keeps of a timestamp. */
  datatype Date = Date(year: int, month: int, day: int)

  /** A naive UTC `datetime`: its day and the microseconds elapsed since midnight. */
  datatype Timestamp = Timestamp(date: Date, timeOfDay: nat)

  datatype Entry = Entry(
    id: nat,
    itemLabel: string,
    confidence: real,
    material: string,
    recyclable: Option<bool>,
    co2Estimate: Option<real>,
    timestamp: Timestamp,
    username: string,
    filename: string)

  /** The username `/classify` records when the session holds none: `request.session.get("username", "guest")`. */
  const DefaultUsername := "guest"

  /** Year-first lexicographic order on dates, which is also the order of their "%Y-%m-%d" keys. */
  predicate DateBefore(a: Date, b: Date) {
    a.year < b.year
    || (a.year == b.year && a.month < b.month)
    || (a.year == b.year && a.month == b.month && a.day < b.day)
  }

  /** `datetime` comparison. */
  predicate TimestampBefore(a: Timestamp, b: Timestamp) {
    DateBefore(a.date, b.date) || (a.date == b.date && a.timeOfDay < b.timeOfDay)
  }

  /** The order of `order_by(WasteLog.timestamp)`. */
  predicate LoggedBefore(a: Entry, b: Entry) {
    TimestampBefore(a.timestamp, b.timestamp)
  }

  /** The key `log.timestamp.strftime("%Y-%m-%d")`. */
  function DayKey(e: Entry): Date {
    e.timestamp.date
  }

  /** `db.query(WasteLog).filter(WasteLog.username == name)`: store order, only that user's rows. */
  function LogsOf(store: seq<Entry>, name: string): (r: seq<Entry>)
    ensures forall e :: e in r <==> e in store && e.username == name
    ensures |r| <= |store|
  {
    if store == [] then []
    else
      var init, last := store[..|store| - 1], store[|store| - 1];
      LogsOf(init, name) + (if last.username == name then [last] else [])
  }

  /** The filtered list keeps every copy of each of the user's entries and nothing else. */
  lemma {:induction false} LogsOfCounts(store: seq<Entry>, name: string, e: Entry)
    ensures multiset(LogsOf(store, name))[e] == if e.username == name then multiset(store)[e] else 0
  {
    if store != [] {
      var init, last := store[..|store| - 1], store[|store| - 1];
      assert store == init + [last];
      LogsOfCounts(init, name, e);
    }
  }

  lemma {:induction false} LogsOfAppend(store: seq<Entry>, e: Entry, name: string)
    ensures LogsOf(store + [e], name)
      == LogsOf(store, name) + (if e.username == name then [e] else [])
  {
  }
}
