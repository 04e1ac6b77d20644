/** The rollup jobs: recomputing a day replaces it, recomputing today keeps hours and day in step,
    and API traffic is attributed to accounts without losing any of it. */
module RollupRuns {
  import opened Prelude
  import opened BulkUpsert
  import opened KeyText
  import opened LagosTime
  import opened Rollups

  // ------------------------------------------------------------ replacing a day

  function DayRows(events: seq<Event>, ledger: map<string, Txn>, day: int, daily: bool): seq<UsageRow> {
    SourceRows(events, ledger, DayStart(day), DayStart(day + 1), daily)
  }

  /** What the raw source says the daily rows of a Lagos day should be. */
  function DaySource(events: seq<Event>, ledger: map<string, Txn>, day: int): map<UsageKey, UsageTotals> {
    var rows := DayRows(events, ledger, day, true);
    map k | k in KeysOf(rows, ByKey()) :: GroupSum(rows, ByKey(), AddRows(AddUsage), k).totals
  }

  predicate DailyOf(k: UsageKey, day: int) { k.date == day && k.hour == -1 }

  predicate OlderThan(stamp: Option<int>, run: int) { stamp.None? || stamp.value < run }

  /** The table with the daily rows of `day` replaced by `source`, except that a row already stamped
      by a later run is left alone. */
  function ReplaceDay(table: UsageMap, source: map<UsageKey, UsageTotals>, day: int, run: int): UsageMap {
    map k | k in table.Keys + source.Keys && (k in source || !DailyOf(k, day) || !OlderThan(table[k].stamp, run)) ::
      if k in source then Stored(source[k], Some(run)) else table[k]
  }

  /** Every source row of a day carries that day and hour -1, or an hour of the day. */
  lemma DayRowsAreOfTheDay(events: seq<Event>, ledger: map<string, Txn>, day: int, daily: bool, k: UsageKey)
    requires k in KeysOf(DayRows(events, ledger, day, daily), ByKey())
    ensures k.date == day && (if daily then k.hour == -1 else 0 <= k.hour < 24)
  {
    var window := Window(events, DayStart(day), DayStart(day + 1));
    var rows := DayRows(events, ledger, day, daily);
    var i :| 0 <= i < |rows| && KeysOf(rows, ByKey())[i] == k;
    assert window[i] in window;
    WindowHolds(events, DayStart(day), DayStart(day + 1));
    BoundsAreTheDay(day, window[i].createdAt);
  }

  /** The daily rows of `day` are then exactly the source: the same keys and the same totals. */
  predicate DayIsSource(table: UsageMap, source: map<UsageKey, UsageTotals>, day: int) {
    && (forall k :: k in table && DailyOf(k, day) ==> k in source)
    && (forall k :: k in source ==> k in table && table[k].totals == source[k])
  }

  /** The source of a day has a row exactly under the keys that events of the day fall into, with their
      totals. */
  lemma {:induction false} DaySourceTells(events: seq<Event>, ledger: map<string, Txn>, day: int, k: UsageKey)
    ensures var source := DaySource(events, ledger, day);
      && (k in source <==> EventCount(events, DayStart(day), DayStart(day + 1), k, true, None) > 0)
      && (k in source ==> Tells(source[k], events, ledger, DayStart(day), DayStart(day + 1), k, true))
  {
    SourceTells(events, ledger, DayStart(day), DayStart(day + 1), true, k);
    hide EventCount, Tells, SourceRows, GroupSum;
  }

  /** The rows of the day are in the table with the totals of the events that fall into them. */
  ghost predicate DayStored(table: UsageMap, events: seq<Event>, ledger: map<string, Txn>, day: int) {
    forall k :: EventCount(events, DayStart(day), DayStart(day + 1), k, true, None) > 0 ==>
      k in table && Tells(table[k].totals, events, ledger, DayStart(day), DayStart(day + 1), k, true)
  }

  /** An upsert of a window: every key that events fall into holds their totals, with the stamp given or
      the one it had, and every other row is what it was. */
  ghost predicate UsageStored(table: UsageMap, after: UsageMap, seen: Reading, start: int, end: int, daily: bool, stamp: Option<int>) {
    forall k :: if EventCount(seen.events, start, end, k, daily, None) > 0
      then k in after && Tells(after[k].totals, seen.events, seen.ledger, start, end, k, daily) && Stamped(table, k, stamp, after[k])
      else (k in after <==> k in table) && (k in table ==> after[k] == table[k])
  }

  lemma UsageIsStored(table: UsageMap, seen: Reading, start: int, end: int, daily: bool, stamp: Option<int>)
    ensures UsageStored(table, Override(table, SourceRows(seen.events, seen.ledger, start, end, daily), AddUsage, stamp), seen, start, end, daily, stamp)
  {
    var rows := SourceRows(seen.events, seen.ledger, start, end, daily);
    var after := Override(table, rows, AddUsage, stamp);
    forall k
      ensures if EventCount(seen.events, start, end, k, daily, None) > 0
        then k in after && Tells(after[k].totals, seen.events, seen.ledger, start, end, k, daily) && Stamped(table, k, stamp, after[k])
        else (k in after <==> k in table) && (k in table ==> after[k] == table[k])
    {
      SourceTells(seen.events, seen.ledger, start, end, daily, k);
      OverrideTells(table, rows, AddUsage, stamp);
      hide EventCount, Tells, SourceRows, GroupSum, KeysOf, Override;
    }
  }

  /** Replacing the day takes no hourly row away and changes none. */
  lemma HoursSurvive(table: UsageMap, events: seq<Event>, ledger: map<string, Txn>, day: int, run: int, k: UsageKey)
    requires k.hour != -1
    ensures var after := ReplaceDay(table, DaySource(events, ledger, day), day, run);
      (k in after <==> k in table) && (k in table ==> after[k] == table[k])
  {
    if k in DaySource(events, ledger, day) { DayRowsAreOfTheDay(events, ledger, day, true, k); }
  }

  lemma ReplacedDayStored(table: UsageMap, events: seq<Event>, ledger: map<string, Txn>, day: int, run: int)
    ensures DayStored(ReplaceDay(table, DaySource(events, ledger, day), day, run), events, ledger, day)
  {
    var after := ReplaceDay(table, DaySource(events, ledger, day), day, run);
    forall k | EventCount(events, DayStart(day), DayStart(day + 1), k, true, None) > 0
      ensures k in after && Tells(after[k].totals, events, ledger, DayStart(day), DayStart(day + 1), k, true)
    {
      DaySourceTells(events, ledger, day, k);
      hide EventCount, Tells, DaySource;
    }
  }

  /** Finalising leaves the day equal to its source exactly when no row outside the source carries
      the stamp of this run or a later one; nothing else in the table changes either way. */
  lemma {:induction false} FinalisedDayIsSource(table: UsageMap, events: seq<Event>, ledger: map<string, Txn>, day: int, run: int)
    ensures var source := DaySource(events, ledger, day);
      var after := ReplaceDay(table, source, day, run);
      && (DayIsSource(after, source, day) <==>
            forall k :: k in table && DailyOf(k, day) && k !in source ==> OlderThan(table[k].stamp, run))
      && (forall k :: !DailyOf(k, day) ==> (k in after <==> k in table) && (k in table ==> after[k] == table[k]))
      && DayStored(after, events, ledger, day)
  {
    ReplacedDayStored(table, events, ledger, day, run);
    hide DayStored;
    var source := DaySource(events, ledger, day);
    var after := ReplaceDay(table, source, day, run);
    forall k | k in source ensures DailyOf(k, day) { DayRowsAreOfTheDay(events, ledger, day, true, k); }
    forall k | k in table && DailyOf(k, day) && k !in source
      ensures k in after <==> !OlderThan(table[k].stamp, run)
    {
    }
  }

  /** What the table held before does not matter, and finalising again changes no total. */
  lemma {:induction false} FinaliseForgetsThePast(table: UsageMap, other: UsageMap, events: seq<Event>, ledger: map<string, Txn>, day: int, run: int, later: int)
    requires run < later
    requires forall k :: k in table && DailyOf(k, day) ==> OlderThan(table[k].stamp, run)
    requires forall k :: k in other && DailyOf(k, day) ==> OlderThan(other[k].stamp, run)
    ensures var source := DaySource(events, ledger, day);
      var once, twice := ReplaceDay(table, source, day, run), ReplaceDay(ReplaceDay(table, source, day, run), source, day, later);
      var elsewhere := ReplaceDay(other, source, day, run);
      && once.Keys == twice.Keys
      && (forall k :: k in once ==> once[k].totals == twice[k].totals)
      && (forall k :: DailyOf(k, day) ==> (k in once <==> k in elsewhere) && (k in once ==> once[k] == elsewhere[k]))
  {
    var source := DaySource(events, ledger, day);
    var once := ReplaceDay(table, source, day, run);
    var twice := ReplaceDay(once, source, day, later);
    forall k | k in source ensures DailyOf(k, day) { DayRowsAreOfTheDay(events, ledger, day, true, k); }
    forall k ensures k in once <==> k in twice {
      if k in once && k !in source { assert !DailyOf(k, day); }
    }
  }

  // ------------------------------------------------------------ today's picture

  /** What the table holds under a key. */
  function TableValue(table: UsageMap, k: UsageKey, measure: UsageTotals -> real): real {
    if k in table then measure(table[k].totals) else 0.0
  }

  function TableHours(table: UsageMap, k: UsageKey, n: nat, measure: UsageTotals -> real): real {
    if n == 0 then 0.0 else TableHours(table, k, n - 1, measure) + TableValue(table, k.(hour := n - 1), measure)
  }

  /** What one query of the product saw. */
  datatype Reading = Reading(events: seq<Event>, ledger: map<string, Txn>)

  function RowsOf(seen: Reading, day: int, daily: bool): seq<UsageRow> { DayRows(seen.events, seen.ledger, day, daily) }

  /** The hourly rows come from a first reading of the product, the daily rows from a second one. */
  function CurrentDay(table: UsageMap, first: Reading, second: Reading, day: int, run: int): UsageMap {
    ReplaceDay(
      Override(table, RowsOf(first, day, false), AddUsage, None),
      DaySource(second.events, second.ledger, day), day, run)
  }

  /** The rows behind a key: the hours of the first reading, the day of the second. */
  function RowsFor(first: Reading, second: Reading, day: int, k: UsageKey): seq<UsageRow> {
    RowsOf(if k.hour == -1 then second else first, day, k.hour == -1)
  }

  predicate HasSource(first: Reading, second: Reading, day: int, k: UsageKey) {
    k in KeysOf(RowsFor(first, second, day, k), ByKey())
  }

  /** A row of the day that today's run keeps although it has no source: any hourly one, and a daily one
      stamped by this run or a later one. */
  predicate Leftover(table: UsageMap, first: Reading, second: Reading, day: int, run: int, k: UsageKey) {
    k in table && !HasSource(first, second, day, k) && (k.hour == -1 ==> !OlderThan(table[k].stamp, run))
  }

  function LeftoverValue(table: UsageMap, first: Reading, second: Reading, day: int, run: int, k: UsageKey, measure: UsageTotals -> real): real {
    if Leftover(table, first, second, day, run, k) then measure(table[k].totals) else 0.0
  }

  function LeftoverHours(table: UsageMap, first: Reading, second: Reading, day: int, run: int, k: UsageKey, n: nat, measure: UsageTotals -> real): real {
    if n == 0 then 0.0
    else LeftoverHours(table, first, second, day, run, k, n - 1, measure) +
         LeftoverValue(table, first, second, day, run, k.(hour := n - 1), measure)
  }

  /** What today's run leaves under a key of the day: its source, or a leftover row. */
  lemma CurrentDayAt(table: UsageMap, first: Reading, second: Reading, day: int, run: int, k: UsageKey, measure: UsageTotals -> real)
    requires k.date == day && (k.hour == -1 || 0 <= k.hour < 24)
    ensures TableValue(CurrentDay(table, first, second, day, run), k, measure) ==
      BucketValue(RowsFor(first, second, day, k), k, measure) + LeftoverValue(table, first, second, day, run, k, measure)
  {
    hide GroupSum, KeysOf, DayRows;
    if k in DaySource(second.events, second.ledger, day) {
      DayRowsAreOfTheDay(second.events, second.ledger, day, true, k);
    }
    if k in KeysOf(RowsOf(first, day, false), ByKey()) {
      DayRowsAreOfTheDay(first.events, first.ledger, day, false, k);
    }
  }

  lemma {:induction false} TableHoursAreSource(table: UsageMap, first: Reading, second: Reading, day: int, run: int, k: UsageKey, n: nat, measure: UsageTotals -> real)
    requires k.date == day && n <= 24
    ensures TableHours(CurrentDay(table, first, second, day, run), k, n, measure) ==
      HoursValue(RowsOf(first, day, false), k, n, measure) + LeftoverHours(table, first, second, day, run, k, n, measure)
  {
    hide CurrentDay, RowsOf, KeysOf, BucketValue, TableValue, LeftoverValue;
    if n > 0 {
      TableHoursAreSource(table, first, second, day, run, k, n - 1, measure);
      CurrentDayAt(table, first, second, day, run, k.(hour := n - 1), measure);
    }
  }

  /** After today's run the hourly rows of a channel, account, country and provider add up to its
      daily row exactly when the day as first read and the leftover hours come to what the day as read
      again and a leftover daily row do. */
  lemma {:induction false} CurrentDayAddsUpExactlyWhen(table: UsageMap, first: Reading, second: Reading, day: int, run: int, k: UsageKey, measure: UsageTotals -> real)
    requires AddsUp(measure) && DailyOf(k, day)
    ensures var after := CurrentDay(table, first, second, day, run);
      TableHours(after, k, 24, measure) == TableValue(after, k, measure) <==>
      BucketValue(RowsOf(first, day, true), k, measure) + LeftoverHours(table, first, second, day, run, k, 24, measure) ==
      BucketValue(RowsOf(second, day, true), k, measure) + LeftoverValue(table, first, second, day, run, k, measure)
  {
    hide CurrentDay, KeysOf, BucketValue, TableValue, TableHours, HoursValue, EventRows, Window, LeftoverValue, LeftoverHours;
    TableHoursAreSource(table, first, second, day, run, k, 24, measure);
    var window := Window(first.events, DayStart(day), DayStart(day + 1));
    PartHoursMakeTheDay(window, window, first.ledger, k, measure);
    assert k.(hour := -1) == k;
    CurrentDayAt(table, first, second, day, run, k, measure);
  }

  ghost predicate HoursHaveSources(table: UsageMap, first: Reading, second: Reading, day: int, k: UsageKey) {
    forall h :: 0 <= h < 24 && k.(hour := h) in table ==> HasSource(first, second, day, k.(hour := h))
  }

  lemma {:induction false} NothingLeftOver(table: UsageMap, first: Reading, second: Reading, day: int, run: int, k: UsageKey, n: nat, measure: UsageTotals -> real)
    requires n <= 24 && HoursHaveSources(table, first, second, day, k)
    ensures LeftoverHours(table, first, second, day, run, k, n, measure) == 0.0
  {
    hide HasSource;
    if n > 0 { NothingLeftOver(table, first, second, day, run, k, n - 1, measure); }
  }

  /** Over an older daily row, and with both readings alike, they do exactly when the hourly rows whose
      source is gone total 0; with no such row, exactly when both readings give the day the same value. */
  lemma {:induction false} CurrentDayAddsUp(table: UsageMap, first: Reading, second: Reading, day: int, run: int, k: UsageKey, measure: UsageTotals -> real)
    requires AddsUp(measure) && DailyOf(k, day)
    requires k in table ==> OlderThan(table[k].stamp, run)
    ensures var after := CurrentDay(table, first, second, day, run);
      var adds := TableHours(after, k, 24, measure) == TableValue(after, k, measure);
      var alike := BucketValue(RowsOf(first, day, true), k, measure) == BucketValue(RowsOf(second, day, true), k, measure);
      && (alike ==> (adds <==> LeftoverHours(table, first, second, day, run, k, 24, measure) == 0.0))
      && (HoursHaveSources(table, first, second, day, k) ==> (adds <==> alike))
  {
    hide CurrentDay, TableValue, TableHours, LeftoverHours, HasSource, BucketValue;
    CurrentDayAddsUpExactlyWhen(table, first, second, day, run, k, measure);
    if HoursHaveSources(table, first, second, day, k) {
      NothingLeftOver(table, first, second, day, run, k, 24, measure);
    }
  }

  function Attempts(): UsageTotals -> real { (t: UsageTotals) => t.attempted as real }

  /** An event that arrives between the two readings is in the day and in none of its hours, though no
      row was left over from before. */
  lemma {:induction false} EventBetweenReadings(e: Event, ledger: map<string, Txn>, run: int)
    ensures var day, k := DayOf(e.createdAt), KeyOf(e, true);
      var after := CurrentDay(map[], Reading([], ledger), Reading([e], ledger), day, run);
      TableHours(after, k, 24, Attempts()) == 0.0 && TableValue(after, k, Attempts()) == 1.0
  {
    var day, k := DayOf(e.createdAt), KeyOf(e, true);
    var first, second := Reading([], ledger), Reading([e], ledger);
    OneEventDay(e, ledger);
    assert RowsOf(first, day, false) == [];
    NoHours(first, second, day, run, k, 24);
    CurrentDayAt(map[], first, second, day, run, k, Attempts());
  }

  lemma OneEventDay(e: Event, ledger: map<string, Txn>)
    ensures BucketValue(RowsOf(Reading([e], ledger), DayOf(e.createdAt), true), KeyOf(e, true), Attempts()) == 1.0
  {
    var day, k := DayOf(e.createdAt), KeyOf(e, true);
    BoundsAreTheDay(day, e.createdAt);
    assert [e][..0] == [] && Window([], DayStart(day), DayStart(day + 1)) == [];
    var rows := RowsOf(Reading([e], ledger), day, true);
    assert rows == [Row(k, EventTotals(e, [e], ledger))];
    assert KeysOf(rows, ByKey()) == [k];
    assert rows[..0] == [];
  }

  lemma {:induction false} NoHours(first: Reading, second: Reading, day: int, run: int, k: UsageKey, n: nat)
    requires k.date == day && n <= 24 && RowsOf(first, day, false) == []
    ensures TableHours(CurrentDay(map[], first, second, day, run), k, n, Attempts()) == 0.0
  {
    if n > 0 {
      NoHours(first, second, day, run, k, n - 1);
      CurrentDayAt(map[], first, second, day, run, k.(hour := n - 1), Attempts());
      hide CurrentDay;
    }
  }

  // ------------------------------------------------------------ API traffic

  datatype Log = Log(createdAt: int, prefix: Option<string>, endpoint: string, method_: string, countryCode: Option<string>, statusCode: int)

  datatype PrefixKey = PrefixKey(date: int, hour: int, prefix: Option<string>, endpoint: string, method_: string, country: string)

  datatype RequestKey = RequestKey(date: int, hour: int, accountId: string, endpoint: string, method_: string, country: string)

  datatype RequestTotals = RequestTotals(total: int, clientErrors: int, serverErrors: int)

  function AddRequests(a: RequestTotals, b: RequestTotals): RequestTotals {
    RequestTotals(a.total + b.total, a.clientErrors + b.clientErrors, a.serverErrors + b.serverErrors)
  }

  function RequestName(k: RequestKey): string {
    Join([IntText(k.date), IntText(k.hour), k.accountId, k.endpoint, k.method_, k.country], NUL)
  }

  predicate CleanRequestKey(k: RequestKey) { NoNul([k.accountId, k.endpoint, k.method_, k.country]) }

  lemma {:induction false} RequestNameInjective(a: RequestKey, b: RequestKey)
    requires CleanRequestKey(a) && CleanRequestKey(b)
    ensures RequestName(a) == RequestName(b) <==> a == b
  {
    if RequestName(a) == RequestName(b) {
      var u := UsageKey(a.date, a.hour, a.accountId, a.endpoint, a.method_, a.country);
      var v := UsageKey(b.date, b.hour, b.accountId, b.endpoint, b.method_, b.country);
      UsageNameInjective(u, v);
    }
  }

  function LogWindow(logs: seq<Log>, start: int, end: int): seq<Log> {
    if logs == [] then []
    else
      var last := logs[|logs| - 1];
      LogWindow(logs[..|logs| - 1], start, end) + (if start <= last.createdAt < end then [last] else [])
  }

  function PrefixKeyOf(l: Log): PrefixKey {
    PrefixKey(DayOf(l.createdAt), HourOf(l.createdAt), l.prefix, l.endpoint, l.method_,
              if l.countryCode.Some? then l.countryCode.value else "UNKNOWN")
  }

  function LogRows(window: seq<Log>): (rows: seq<Row<PrefixKey, RequestTotals>>)
    ensures |rows| == |window|
  {
    seq(|window|, i requires 0 <= i < |window| =>
      Row(PrefixKeyOf(window[i]),
          RequestTotals(1, One(400 <= window[i].statusCode <= 499), One(window[i].statusCode >= 500))))
  }

  /** The account an API key prefix belongs to; '' for no key, or one since deleted. */
  function AccountOf(prefix: Option<string>, accounts: map<string, string>): string {
    if prefix.Some? && prefix.value != "" && prefix.value in accounts then accounts[prefix.value] else ""
  }

  function Attributed(k: PrefixKey, accounts: map<string, string>): RequestKey {
    RequestKey(k.date, k.hour, AccountOf(k.prefix, accounts), k.endpoint, k.method_, k.country)
  }

  /** The rows `rollRequests` writes: traffic grouped by prefix, then attributed. */
  function RequestRows(window: seq<Log>, accounts: map<string, string>): (rows: seq<Row<RequestKey, RequestTotals>>) {
    var grouped := Merged(LogRows(window), ByKey(), AddRows(AddRequests));
    seq(|grouped|, i requires 0 <= i < |grouped| => Row(Attributed(grouped[i].key, accounts), grouped[i].totals))
  }

  /** The three counts a bucket keeps, and the log rows each of them counts. */
  datatype Count = AllRequests | ClientErrors | ServerErrors

  function CountIn(c: Count, t: RequestTotals): int {
    match c case AllRequests => t.total case ClientErrors => t.clientErrors case ServerErrors => t.serverErrors
  }

  predicate Counts(c: Count, l: Log) {
    match c case AllRequests => true case ClientErrors => 400 <= l.statusCode < 500 case ServerErrors => l.statusCode >= 500
  }

  /** The log row is traffic of the bucket: its instant in the bucket's Lagos hour, its own endpoint,
      method and country, and the account its API key prefix is mapped to; the '' account has the rows
      without a prefix, with an empty one, and with one that is mapped to no account. */
  ghost predicate IsTraffic(l: Log, accounts: map<string, string>, k: RequestKey) {
    && 0 <= k.hour < 24
    && DayStart(k.date) + k.hour * 3_600_000 <= l.createdAt < DayStart(k.date) + (k.hour + 1) * 3_600_000
    && k.endpoint == l.endpoint && k.method_ == l.method_
    && (if l.countryCode.Some? then k.country == l.countryCode.value else k.country == "UNKNOWN")
    && (if l.prefix.None? || l.prefix.value == "" || l.prefix.value !in accounts then k.accountId == ""
        else k.accountId == accounts[l.prefix.value])
  }

  /** How many log rows from `start` on and before `end` are traffic of the bucket and counted. */
  ghost function LogCount(c: Count, logs: seq<Log>, accounts: map<string, string>, start: int, end: int, k: RequestKey): nat
    decreases |logs|
  {
    if logs == [] then 0
    else
      var last := logs[|logs| - 1];
      LogCount(c, logs[..|logs| - 1], accounts, start, end, k) +
      if start <= last.createdAt < end && Counts(c, last) && IsTraffic(last, accounts, k) then 1 else 0
  }

  lemma TrafficOfItsKey(l: Log, accounts: map<string, string>, k: RequestKey)
    ensures IsTraffic(l, accounts, k) <==> Attributed(PrefixKeyOf(l), accounts) == k
  {
    LagosIsAnHourAhead(k.date, l.createdAt);
    if IsTraffic(l, accounts, k) { HourIsUnique(l.createdAt, k.date, k.hour); }
  }

  function RequestsOf(c: Count): Row<RequestKey, RequestTotals> -> real {
    (r: Row<RequestKey, RequestTotals>) => CountIn(c, r.totals) as real
  }

  function RequestsFor(c: Count, accounts: map<string, string>, k: RequestKey): Row<PrefixKey, RequestTotals> -> real {
    (r: Row<PrefixKey, RequestTotals>) => if Attributed(r.key, accounts) == k then CountIn(c, r.totals) as real else 0.0
  }

  lemma RequestsAdditive(c: Count, accounts: map<string, string>, k: RequestKey)
    ensures Additive<Row<PrefixKey, RequestTotals>, PrefixKey>(ByKey(), AddRows(AddRequests), RequestsFor(c, accounts, k))
    ensures Additive<Row<RequestKey, RequestTotals>, RequestKey>(ByKey(), AddRows(AddRequests), RequestsOf(c))
  {
    forall a: Row<PrefixKey, RequestTotals>, b: Row<PrefixKey, RequestTotals> | a.key == b.key
      ensures AddRows(AddRequests)(a, b) == Row(a.key, AddRequests(a.totals, b.totals))
    {
    }
    forall a: Row<RequestKey, RequestTotals>, b: Row<RequestKey, RequestTotals> | a.key == b.key
      ensures AddRows(AddRequests)(a, b) == Row(a.key, AddRequests(a.totals, b.totals))
    {
    }
  }

  lemma {:induction false} AttributedTotal(c: Count, grouped: seq<Row<PrefixKey, RequestTotals>>, rows: seq<Row<RequestKey, RequestTotals>>, accounts: map<string, string>, k: RequestKey)
    requires |rows| == |grouped|
    requires forall i :: 0 <= i < |rows| ==> rows[i] == Row(Attributed(grouped[i].key, accounts), grouped[i].totals)
    ensures Total(rows, Only(ByKey(), k, RequestsOf(c))) == Total(grouped, RequestsFor(c, accounts, k))
    decreases |rows|
  {
    if rows != [] {
      var n := |rows| - 1;
      AttributedTotal(c, grouped[..n], rows[..n], accounts, k);
    }
  }

  lemma OneMoreLog(c: Count, window: seq<Log>, last: Log, accounts: map<string, string>, k: RequestKey)
    ensures Total(LogRows(window + [last]), RequestsFor(c, accounts, k)) ==
      Total(LogRows(window), RequestsFor(c, accounts, k)) +
      if Counts(c, last) && Attributed(PrefixKeyOf(last), accounts) == k then 1.0 else 0.0
  {
    var more := LogRows(window + [last]);
    assert more[..|window|] == LogRows(window);
    hide Attributed;
  }

  lemma {:induction false} LogsTotal(c: Count, logs: seq<Log>, accounts: map<string, string>, start: int, end: int, k: RequestKey)
    ensures Total(LogRows(LogWindow(logs, start, end)), RequestsFor(c, accounts, k)) == LogCount(c, logs, accounts, start, end, k) as real
    decreases |logs|
  {
    if logs != [] {
      var init, last := logs[..|logs| - 1], logs[|logs| - 1];
      LogsTotal(c, init, accounts, start, end, k);
      TrafficOfItsKey(last, accounts, k);
      OneMoreLog(c, LogWindow(init, start, end), last, accounts, k);
      hide IsTraffic, Attributed, Total, LogRows, RequestsFor, Counts;
      assert LogWindow(init, start, end) + [] == LogWindow(init, start, end);
    } else {
      assert LogRows([]) == [];
    }
  }

  /** Each request bucket counts exactly the log rows of its traffic, and the failed ones among them; a
      key without any has no bucket. */
  lemma {:induction false} RequestsAttributed(c: Count, logs: seq<Log>, accounts: map<string, string>, start: int, end: int, k: RequestKey)
    ensures var rows := RequestRows(LogWindow(logs, start, end), accounts);
      (if k in KeysOf(rows, ByKey()) then CountIn(c, GroupSum(rows, ByKey(), AddRows(AddRequests), k).totals) else 0) ==
      LogCount(c, logs, accounts, start, end, k)
  {
    var window := LogWindow(logs, start, end);
    var rows := RequestRows(window, accounts);
    RequestsAdditive(c, accounts, k);
    GroupSumMeasures(rows, ByKey(), AddRows(AddRequests), RequestsOf(c), k);
    AttributedTotal(c, Merged(LogRows(window), ByKey(), AddRows(AddRequests)), rows, accounts, k);
    MergeConserves(LogRows(window), ByKey(), AddRows(AddRequests), RequestsFor(c, accounts, k));
    LogsTotal(c, logs, accounts, start, end, k);
  }

  /** The totals of a bucket are those of its traffic. */
  ghost predicate TellsTraffic(totals: RequestTotals, logs: seq<Log>, accounts: map<string, string>, start: int, end: int, k: RequestKey) {
    && totals.total == LogCount(AllRequests, logs, accounts, start, end, k)
    && totals.clientErrors == LogCount(ClientErrors, logs, accounts, start, end, k)
    && totals.serverErrors == LogCount(ServerErrors, logs, accounts, start, end, k)
  }

  /** After the run every bucket with traffic holds it, and every other row is what it was. */
  ghost predicate TrafficStored(table: map<RequestKey, Stored<RequestTotals>>, after: map<RequestKey, Stored<RequestTotals>>,
                                logs: seq<Log>, accounts: map<string, string>, start: int, end: int) {
    forall k :: if LogCount(AllRequests, logs, accounts, start, end, k) > 0
      then k in after && TellsTraffic(after[k].totals, logs, accounts, start, end, k)
      else (k in after <==> k in table) && (k in table ==> after[k] == table[k])
  }

  lemma TrafficIsStored(table: map<RequestKey, Stored<RequestTotals>>, logs: seq<Log>, accounts: map<string, string>, start: int, end: int)
    ensures TrafficStored(table, Override(table, RequestRows(LogWindow(logs, start, end), accounts), AddRequests, None), logs, accounts, start, end)
  {
    var rows := RequestRows(LogWindow(logs, start, end), accounts);
    var after := Override(table, rows, AddRequests, None);
    forall k
      ensures if LogCount(AllRequests, logs, accounts, start, end, k) > 0
        then k in after && TellsTraffic(after[k].totals, logs, accounts, start, end, k)
        else (k in after <==> k in table) && (k in table ==> after[k] == table[k])
    {
      RequestsAttributed(AllRequests, logs, accounts, start, end, k);
      RequestsAttributed(ClientErrors, logs, accounts, start, end, k);
      RequestsAttributed(ServerErrors, logs, accounts, start, end, k);
      BucketsAreUsed(LogWindow(logs, start, end), accounts, k);
      hide LogCount, RequestRows, GroupSum, KeysOf, LogWindow;
    }
  }

  lemma {:induction false} TotalsArePositive(rows: seq<Row<RequestKey, RequestTotals>>, k: RequestKey)
    requires k in KeysOf(rows, ByKey()) && forall i :: 0 <= i < |rows| ==> rows[i].totals.total >= 1
    ensures GroupSum(rows, ByKey(), AddRows(AddRequests), k).totals.total >= 1
    decreases |rows|
  {
    var init := rows[..|rows| - 1];
    assert KeysOf(rows, ByKey()) == KeysOf(init, ByKey()) + [rows[|rows| - 1].key];
    var last := rows[|rows| - 1];
    assert last.totals.total >= 1;
    if k in KeysOf(init, ByKey()) {
      TotalsArePositive(init, k);
      var before := GroupSum(init, ByKey(), AddRows(AddRequests), k);
      assert AddRows(AddRequests)(before, last) == before.(totals := AddRequests(before.totals, last.totals));
    }
  }

  lemma {:induction false} GroupedPositive(rows: seq<Row<PrefixKey, RequestTotals>>, k: PrefixKey)
    requires k in KeysOf(rows, ByKey()) && forall i :: 0 <= i < |rows| ==> rows[i].totals.total >= 1
    ensures GroupSum(rows, ByKey(), AddRows(AddRequests), k).totals.total >= 1
    decreases |rows|
  {
    var init := rows[..|rows| - 1];
    assert KeysOf(rows, ByKey()) == KeysOf(init, ByKey()) + [rows[|rows| - 1].key];
    var last := rows[|rows| - 1];
    assert last.totals.total >= 1;
    if k in KeysOf(init, ByKey()) {
      GroupedPositive(init, k);
      var before := GroupSum(init, ByKey(), AddRows(AddRequests), k);
      assert AddRows(AddRequests)(before, last) == before.(totals := AddRequests(before.totals, last.totals));
    }
  }

  lemma BucketsAreUsed(window: seq<Log>, accounts: map<string, string>, k: RequestKey)
    ensures var rows := RequestRows(window, accounts);
      k in KeysOf(rows, ByKey()) ==> GroupSum(rows, ByKey(), AddRows(AddRequests), k).totals.total >= 1
  {
    var logRows := LogRows(window);
    var keys := FirstKeys(KeysOf(logRows, ByKey()));
    var rows := RequestRows(window, accounts);
    forall i | 0 <= i < |rows| ensures rows[i].totals.total >= 1 {
      assert keys[i] in keys;
      GroupedPositive(logRows, keys[i]);
    }
    if k in KeysOf(rows, ByKey()) { TotalsArePositive(rows, k); }
  }

  function Every(c: Count): Row<PrefixKey, RequestTotals> -> real { (r: Row<PrefixKey, RequestTotals>) => CountIn(c, r.totals) as real }

  function Matching(c: Count, window: seq<Log>): nat {
    if window == [] then 0
    else Matching(c, window[..|window| - 1]) + if Counts(c, window[|window| - 1]) then 1 else 0
  }

  lemma {:induction false} EveryLog(c: Count, window: seq<Log>)
    ensures Total(LogRows(window), Every(c)) == Matching(c, window) as real
    decreases |window|
  {
    if window != [] {
      var n := |window| - 1;
      EveryLog(c, window[..n]);
      assert LogRows(window)[..n] == LogRows(window[..n]);
    }
  }

  lemma {:induction false} SameTotal(c: Count, grouped: seq<Row<PrefixKey, RequestTotals>>, rows: seq<Row<RequestKey, RequestTotals>>)
    requires |rows| == |grouped|
    requires forall i :: 0 <= i < |rows| ==> rows[i].totals == grouped[i].totals
    ensures Total(rows, RequestsOf(c)) == Total(grouped, Every(c))
    decreases |rows|
  {
    if rows != [] { SameTotal(c, grouped[..|rows| - 1], rows[..|rows| - 1]); }
  }

  /** Each count of a window adds up to the number of log rows it counts, the total to all of them. */
  lemma {:induction false} RequestsAllCounted(c: Count, window: seq<Log>, accounts: map<string, string>)
    ensures Total(Merged(RequestRows(window, accounts), ByKey(), AddRows(AddRequests)), RequestsOf(c)) == Matching(c, window) as real
    ensures c.AllRequests? ==> Matching(c, window) == |window|
  {
    var rows := RequestRows(window, accounts);
    RequestsAdditive(c, accounts, RequestKey(0, 0, "", "", "", ""));
    MergeConserves(rows, ByKey(), AddRows(AddRequests), RequestsOf(c));
    SameTotal(c, Merged(LogRows(window), ByKey(), AddRows(AddRequests)), rows);
    forall a: Row<PrefixKey, RequestTotals>, b: Row<PrefixKey, RequestTotals> | a.key == b.key
      ensures AddRows(AddRequests)(a, b) == Row(a.key, AddRequests(a.totals, b.totals))
    {
    }
    MergeConserves(LogRows(window), ByKey(), AddRows(AddRequests), Every(c));
    EveryLog(c, window);
    if c.AllRequests? { AllMatch(window); }
  }

  lemma {:induction false} AllMatch(window: seq<Log>)
    ensures Matching(AllRequests, window) == |window|
    decreases |window|
  {
    if window != [] { AllMatch(window[..|window| - 1]); }
  }

  // ------------------------------------------------------------ the service

  class RollupsService {
    const usage: RollupTable<UsageKey, UsageTotals>
    const requests: RollupTable<RequestKey, RequestTotals>

    constructor (usage: RollupTable<UsageKey, UsageTotals>, requests: RollupTable<RequestKey, RequestTotals>)
      ensures this.usage == usage && this.requests == requests
    {
      this.usage, this.requests := usage, requests;
    }

    /** `deleteMany` of the day's daily rows that this run did not stamp. */
    method SweepDay(day: int, run: int)
      modifies usage
      ensures usage.rows == map k | k in old(usage.rows) && !(DailyOf(k, day) && OlderThan(old(usage.rows)[k].stamp, run)) :: old(usage.rows)[k]
    {
      usage.rows := map k | k in usage.rows && !(DailyOf(k, day) && OlderThan(usage.rows[k].stamp, run)) :: usage.rows[k];
    }

    /** `finaliseDay`: the usage table ends with that day replaced by its source. */
    method FinaliseDay(events: seq<Event>, ledger: map<string, Txn>, day: int, runStartedAt: int) returns (buckets: nat)
      requires forall e :: e in events ==> CleanEvent(e)
      modifies usage
      ensures usage.rows == ReplaceDay(old(usage.rows), DaySource(events, ledger, day), day, runStartedAt)
      ensures buckets == |DaySource(events, ledger, day)|
      ensures DayStored(usage.rows, events, ledger, day)
    {
      ReplacedDayStored(usage.rows, events, ledger, day, runStartedAt);
      hide DayStored;
      buckets := UpsertDaily(events, ledger, day, runStartedAt);
      SweepDay(day, runStartedAt);
      SweepReplaces(old(usage.rows), events, ledger, day, runStartedAt);
    }

    method UpsertDaily(events: seq<Event>, ledger: map<string, Txn>, day: int, run: int) returns (buckets: nat)
      requires forall e :: e in events ==> CleanEvent(e)
      modifies usage
      ensures usage.rows == Override(old(usage.rows), DayRows(events, ledger, day, true), AddUsage, Some(run))
      ensures UsageStored(old(usage.rows), usage.rows, Reading(events, ledger), DayStart(day), DayStart(day + 1), true, Some(run))
      ensures buckets == |DaySource(events, ledger, day)|
    {
      UsageIsStored(usage.rows, Reading(events, ledger), DayStart(day), DayStart(day + 1), true, Some(run));
      hide UsageStored;
      var rows := UsageBuckets(events, ledger, DayStart(day), DayStart(day + 1), true);
      BucketNamesApart(events, ledger, DayStart(day), DayStart(day + 1), true);
      OverrideByMerged(usage.rows, DayRows(events, ledger, day, true), AddUsage, Some(run));
      usage.Upsert(rows, UsageName, AddUsage, Some(run));
      buckets := |rows|;
      DistinctCount(FirstKeys(KeysOf(DayRows(events, ledger, day, true), ByKey())), DaySource(events, ledger, day).Keys);
    }

    method RollUsage(events: seq<Event>, ledger: map<string, Txn>, start: int, end: int)
      requires forall e :: e in events ==> CleanEvent(e)
      modifies usage
      ensures usage.rows == Override(old(usage.rows), SourceRows(events, ledger, start, end, false), AddUsage, None)
      ensures UsageStored(old(usage.rows), usage.rows, Reading(events, ledger), start, end, false, None)
    {
      UsageIsStored(usage.rows, Reading(events, ledger), start, end, false, None);
      hide UsageStored;
      var rows := UsageBuckets(events, ledger, start, end, false);
      BucketNamesApart(events, ledger, start, end, false);
      OverrideByMerged(usage.rows, SourceRows(events, ledger, start, end, false), AddUsage, None);
      usage.Upsert(rows, UsageName, AddUsage, None);
    }

    /** `rollCurrentDay`: the hourly rows without a stamp, then, read again, the daily rows and their sweep. */
    method RollCurrentDay(first: Reading, second: Reading, day: int, runStartedAt: int)
      requires forall e :: e in first.events || e in second.events ==> CleanEvent(e)
      modifies usage
      ensures usage.rows == CurrentDay(old(usage.rows), first, second, day, runStartedAt)
      ensures DayStored(usage.rows, second.events, second.ledger, day)
      ensures HoursStored(usage.rows, first, day)
    {
      RollUsage(first.events, first.ledger, DayStart(day), DayStart(day + 1));
      ghost var hourly := usage.rows;
      HoursStayStored(old(usage.rows), hourly, first, second, day, runStartedAt);
      ReplacedDayStored(hourly, second.events, second.ledger, day, runStartedAt);
      hide UsageStored, DayStored, HoursStored;
      var _ := UpsertDaily(second.events, second.ledger, day, runStartedAt);
      SweepDay(day, runStartedAt);
      SweepReplaces(hourly, second.events, second.ledger, day, runStartedAt);
    }

    /** `rollRequests`: the whole window, attributed through the API keys the product knows. */
    method RollRequests(logs: seq<Log>, accounts: map<string, string>, start: int, end: int)
      requires forall l :: l in logs ==> CleanRequestKey(Attributed(PrefixKeyOf(l), accounts))
      modifies requests
      ensures requests.rows == Override(old(requests.rows), RequestRows(LogWindow(logs, start, end), accounts), AddRequests, None)
      ensures TrafficStored(old(requests.rows), requests.rows, logs, accounts, start, end)
    {
      var window := LogWindow(logs, start, end);
      var rows := RequestRows(window, accounts);
      RequestNamesApart(logs, accounts, start, end);
      TrafficIsStored(requests.rows, logs, accounts, start, end);
      requests.Upsert(rows, RequestName, AddRequests, None);
    }
  }

  /** Every hour of the day that events fall into is in the table with their totals. */
  ghost predicate HoursStored(table: UsageMap, seen: Reading, day: int) {
    forall k :: EventCount(seen.events, DayStart(day), DayStart(day + 1), k, false, None) > 0 ==>
      k in table && Tells(table[k].totals, seen.events, seen.ledger, DayStart(day), DayStart(day + 1), k, false)
  }

  lemma HoursStayStored(table: UsageMap, hourly: UsageMap, first: Reading, second: Reading, day: int, run: int)
    requires UsageStored(table, hourly, first, DayStart(day), DayStart(day + 1), false, None)
    ensures HoursStored(ReplaceDay(hourly, DaySource(second.events, second.ledger, day), day, run), first, day)
  {
    var after := ReplaceDay(hourly, DaySource(second.events, second.ledger, day), day, run);
    forall k | EventCount(first.events, DayStart(day), DayStart(day + 1), k, false, None) > 0
      ensures k in after && Tells(after[k].totals, first.events, first.ledger, DayStart(day), DayStart(day + 1), k, false)
    {
      OnlyHoursCount(first.events, DayStart(day), DayStart(day + 1), k);
      HoursSurvive(hourly, second.events, second.ledger, day, run, k);
      hide ReplaceDay, DaySource, Tells, EventCount;
    }
  }

  lemma {:induction false} OnlyHoursCount(events: seq<Event>, start: int, end: int, k: UsageKey)
    ensures EventCount(events, start, end, k, false, None) > 0 ==> k.hour != -1
    decreases |events|
  {
    if events != [] { OnlyHoursCount(events[..|events| - 1], start, end, k); }
  }

  lemma SweepReplaces(table: UsageMap, events: seq<Event>, ledger: map<string, Txn>, day: int, run: int)
    ensures var upserted := Override(table, DayRows(events, ledger, day, true), AddUsage, Some(run));
      (map k | k in upserted && !(DailyOf(k, day) && OlderThan(upserted[k].stamp, run)) :: upserted[k]) ==
      ReplaceDay(table, DaySource(events, ledger, day), day, run)
  {
    forall k | k in DaySource(events, ledger, day) ensures DailyOf(k, day) { DayRowsAreOfTheDay(events, ledger, day, true, k); }
  }

  lemma {:induction false} DistinctCount<K(!new)>(keys: seq<K>, members: set<K>)
    requires Distinct(keys) && forall k :: k in members <==> k in keys
    ensures |keys| == |members|
    decreases |keys|
  {
    if keys == [] {
      assert members == {};
    } else {
      var init, last := keys[..|keys| - 1], keys[|keys| - 1];
      assert keys == init + [last];
      DistinctCount(init, members - {last});
    }
  }

  lemma {:induction false} LogWindowHolds(logs: seq<Log>, start: int, end: int)
    ensures forall l :: l in LogWindow(logs, start, end) <==> l in logs && start <= l.createdAt < end
    decreases |logs|
  {
    if logs != [] {
      LogWindowHolds(logs[..|logs| - 1], start, end);
      assert logs == logs[..|logs| - 1] + [logs[|logs| - 1]];
    }
  }

  lemma RequestNamesApart(logs: seq<Log>, accounts: map<string, string>, start: int, end: int)
    requires forall l :: l in logs ==> CleanRequestKey(Attributed(PrefixKeyOf(l), accounts))
    ensures NamesApart(RequestRows(LogWindow(logs, start, end), accounts), RequestName)
  {
    var window := LogWindow(logs, start, end);
    var grouped := Merged(LogRows(window), ByKey(), AddRows(AddRequests));
    var rows := RequestRows(window, accounts);
    LogWindowHolds(logs, start, end);
    forall i | 0 <= i < |rows| ensures CleanRequestKey(rows[i].key) {
      GroupSumOfMerged(LogRows(window), AddRequests, grouped[i].key);
      assert KeysOf(grouped, ByKey())[i] == grouped[i].key;
      var j :| 0 <= j < |window| && KeysOf(LogRows(window), ByKey())[j] == grouped[i].key;
      assert window[j] in logs;
    }
    forall i, j | 0 <= i < |rows| && 0 <= j < |rows| && RequestName(rows[i].key) == RequestName(rows[j].key)
      ensures rows[i].key == rows[j].key
    {
      RequestNameInjective(rows[i].key, rows[j].key);
    }
  }
}
