/** Aggregation of the product's message log, credit ledger and API log into rollup rows, and the
    replace-the-day sweep of finalisation. */
module Rollups {
  import opened Prelude
  import opened BulkUpsert
  import opened KeyText
  import opened LagosTime

  // ------------------------------------------------------------ source and rows

  datatype Event = Event(
    createdAt: int, channel: string, accountId: string, countryCode: Option<string>, operator: Option<string>,
    status: string, cost: Option<real>, tab: Option<string>)

  /** A ledger transaction; a refund names the transaction it refunds. */
  datatype Txn = Txn(kind: string, status: string, charge: real, refundForId: Option<string>)

  datatype UsageKey = UsageKey(date: int, hour: int, channel: string, accountId: string, country: string, provider: string)

  datatype UsageTotals = UsageTotals(attempted: int, succeeded: int, failed: int, units: int, revenue: real, cost: real)

  type UsageRow = Row<UsageKey, UsageTotals>
  type UsageMap = map<UsageKey, Stored<UsageTotals>>

  function AddUsage(a: UsageTotals, b: UsageTotals): UsageTotals {
    UsageTotals(a.attempted + b.attempted, a.succeeded + b.succeeded, a.failed + b.failed, a.units + b.units,
                a.revenue + b.revenue, a.cost + b.cost)
  }

  function UsageFields(k: UsageKey): seq<string> {
    [IntText(k.date), IntText(k.hour), k.channel, k.accountId, k.country, k.provider]
  }

  function UsageName(k: UsageKey): string { Join(UsageFields(k), NUL) }

  predicate CleanUsageKey(k: UsageKey) { NoNul([k.channel, k.accountId, k.country, k.provider]) }

  /** The text key merges exactly the rows that agree on all six fields. */
  lemma {:induction false} UsageNameInjective(a: UsageKey, b: UsageKey)
    requires CleanUsageKey(a) && CleanUsageKey(b)
    ensures UsageName(a) == UsageName(b) <==> a == b
  {
    if UsageName(a) == UsageName(b) {
      var fields := [a.channel, a.accountId, a.country, a.provider];
      var others := [b.channel, b.accountId, b.country, b.provider];
      assert forall i :: 2 <= i < 6 ==> UsageFields(a)[i] == fields[i - 2] && UsageFields(b)[i] == others[i - 2];
      JoinInjective(UsageFields(a), UsageFields(b));
      assert forall i :: 0 <= i < 6 ==> UsageFields(a)[i] == UsageFields(b)[i];
      IntTextInjective(a.date, b.date);
      IntTextInjective(a.hour, b.hour);
      assert fields[0] == others[0] && fields[1] == others[1] && fields[2] == others[2] && fields[3] == others[3];
    }
  }

  // ------------------------------------------------------------ usageBuckets

  function Window(events: seq<Event>, start: int, end: int): seq<Event> {
    if events == [] then []
    else
      var init, last := events[..|events| - 1], events[|events| - 1];
      Window(init, start, end) + (if start <= last.createdAt < end then [last] else [])
  }

  /** `COUNT(*) OVER (PARTITION BY "tabTransactionId")`. */
  function SharedBy(window: seq<Event>, tab: Option<string>): nat {
    if window == [] then 0 else SharedBy(window[..|window| - 1], tab) + if window[|window| - 1].tab == tab then 1 else 0
  }

  predicate Linked(e: Event, ledger: map<string, Txn>) { e.tab.Some? && e.tab.value in ledger }

  /** A debit that neither failed nor was refunded. */
  predicate Charged(ledger: map<string, Txn>, id: string) {
    && id in ledger
    && ledger[id].kind == "DEBIT" && ledger[id].status != "FAILED"
    && !exists r :: r in ledger && ledger[r].refundForId == Some(id)
  }

  /** A debit's charge, shared equally over the events of the window that it paid for. */
  function ShareOf(id: string, window: seq<Event>, ledger: map<string, Txn>): real {
    var n := SharedBy(window, Some(id));
    if Charged(ledger, id) && n > 0 then ledger[id].charge / n as real else 0.0
  }

  /** What an event earns: its share of the debit it was charged under, nothing when that debit
      failed or was refunded, and its own cost when the ledger has no row for it. */
  function Revenue(e: Event, window: seq<Event>, ledger: map<string, Txn>): real {
    if !Linked(e, ledger) then (if e.cost.Some? then e.cost.value else 0.0)
    else ShareOf(e.tab.value, window, ledger)
  }

  function KeyOf(e: Event, daily: bool): UsageKey {
    UsageKey(DayOf(e.createdAt), if daily then -1 else HourOf(e.createdAt), e.channel, e.accountId,
             if e.countryCode.Some? then e.countryCode.value else "UNKNOWN",
             if e.operator.Some? then e.operator.value else "UNKNOWN")
  }

  function One(b: bool): int { if b then 1 else 0 }

  function EventTotals(e: Event, window: seq<Event>, ledger: map<string, Txn>): UsageTotals {
    UsageTotals(1, One(e.status == "DELIVERED"), One(e.status == "FAILED"), 1, Revenue(e, window, ledger), 0.0)
  }

  /** One row per event, before `GROUP BY`; `window` fixes the divisors. */
  function EventRows(events: seq<Event>, window: seq<Event>, ledger: map<string, Txn>, daily: bool): (rows: seq<UsageRow>)
    ensures |rows| == |events|
    ensures forall i :: 0 <= i < |rows| ==> rows[i] == Row(KeyOf(events[i], daily), EventTotals(events[i], window, ledger))
  {
    seq(|events|, i requires 0 <= i < |events| => Row(KeyOf(events[i], daily), EventTotals(events[i], window, ledger)))
  }

  function SourceRows(events: seq<Event>, ledger: map<string, Txn>, start: int, end: int, daily: bool): seq<UsageRow> {
    var window := Window(events, start, end);
    EventRows(window, window, ledger, daily)
  }

  /** The buckets of a window: `GROUP BY` date, hour, channel, account, country and provider. */
  function UsageBuckets(events: seq<Event>, ledger: map<string, Txn>, start: int, end: int, daily: bool): seq<UsageRow> {
    Merged(SourceRows(events, ledger, start, end, daily), ByKey(), AddRows(AddUsage))
  }

  lemma {:induction false} WindowHolds(events: seq<Event>, start: int, end: int)
    ensures forall e :: e in Window(events, start, end) <==> e in events && start <= e.createdAt < end
    decreases |events|
  {
    if events != [] {
      WindowHolds(events[..|events| - 1], start, end);
      assert events == events[..|events| - 1] + [events[|events| - 1]];
    }
  }

  predicate CleanEvent(e: Event) { CleanUsageKey(KeyOf(e, true)) }

  lemma {:induction false} BucketNamesApart(events: seq<Event>, ledger: map<string, Txn>, start: int, end: int, daily: bool)
    requires forall e :: e in events ==> CleanEvent(e)
    ensures NamesApart(UsageBuckets(events, ledger, start, end, daily), UsageName)
  {
    var rows := SourceRows(events, ledger, start, end, daily);
    var buckets := UsageBuckets(events, ledger, start, end, daily);
    WindowHolds(events, start, end);
    forall i | 0 <= i < |buckets| ensures CleanUsageKey(buckets[i].key) {
      GroupSumOfMerged(rows, AddUsage, buckets[i].key);
      assert KeysOf(buckets, ByKey())[i] == buckets[i].key;
      var j :| 0 <= j < |rows| && KeysOf(rows, ByKey())[j] == buckets[i].key;
      var e := Window(events, start, end)[j];
      assert e in events;
      CleanAtEveryHour(e, daily);
    }
    forall i, j | 0 <= i < |buckets| && 0 <= j < |buckets| && UsageName(buckets[i].key) == UsageName(buckets[j].key)
      ensures buckets[i].key == buckets[j].key
    {
      UsageNameInjective(buckets[i].key, buckets[j].key);
    }
  }

  lemma CleanAtEveryHour(e: Event, daily: bool)
    requires CleanEvent(e)
    ensures CleanUsageKey(KeyOf(e, daily))
  {
  }

  // ------------------------------------------------------------ revenue is conserved

  function RevenueOf(): UsageRow -> real { (r: UsageRow) => r.totals.revenue }

  /** The ledger transactions that events of the window are linked to, each once. */
  function TabsOf(window: seq<Event>, ledger: map<string, Txn>): (tabs: seq<string>)
    ensures Distinct(tabs)
    ensures forall t :: t in tabs <==> t in ledger && exists e :: e in window && e.tab == Some(t)
  {
    if window == [] then []
    else
      var init, last := window[..|window| - 1], window[|window| - 1];
      assert window == init + [last];
      var tabs := TabsOf(init, ledger);
      if Linked(last, ledger) && last.tab.value !in tabs then tabs + [last.tab.value] else tabs
  }

  /** A standing debit, in the words of the revenue law: a DEBIT that has not FAILED and that no row of
      the ledger refunds. */
  ghost predicate Stands(ledger: map<string, Txn>, id: string) {
    id in ledger && ledger[id].kind == "DEBIT" && ledger[id].status != "FAILED"
    && forall r :: r in ledger ==> ledger[r].refundForId != Some(id)
  }

  /** The charges of the listed debits that stand. */
  ghost function ChargesOf(tabs: seq<string>, ledger: map<string, Txn>): real {
    if tabs == [] then 0.0
    else
      var last := tabs[|tabs| - 1];
      ChargesOf(tabs[..|tabs| - 1], ledger) + if Stands(ledger, last) then ledger[last].charge else 0.0
  }

  /** The own cost of the events the ledger has no row for. */
  ghost function UnlinkedCost(window: seq<Event>, ledger: map<string, Txn>): real {
    if window == [] then 0.0
    else
      var last := window[|window| - 1];
      UnlinkedCost(window[..|window| - 1], ledger) +
      if (last.tab.None? || last.tab.value !in ledger) && last.cost.Some? then last.cost.value else 0.0
  }

  function Times(n: nat, share: real): real { n as real * share }

  /** What `part` of the window earns from the listed debits: one share for each of its events. */
  function SharesOf(tabs: seq<string>, part: seq<Event>, window: seq<Event>, ledger: map<string, Txn>): real
  {
    if tabs == [] then 0.0
    else
      var last := tabs[|tabs| - 1];
      SharesOf(tabs[..|tabs| - 1], part, window, ledger) + Times(SharedBy(part, Some(last)), ShareOf(last, window, ledger))
  }

  lemma OneMoreShare(part: seq<Event>, e: Event, id: string, share: real)
    ensures Times(SharedBy(part + [e], Some(id)), share) ==
      Times(SharedBy(part, Some(id)), share) + if e.tab == Some(id) then share else 0.0
  {
    assert (part + [e])[..|part|] == part;
    var n := SharedBy(part, Some(id)) as real;
    assert (n + 1.0) * share == n * share + share;
  }

  /** What one event adds to the shares of the listed debits. */
  function ShareIn(tabs: seq<string>, tab: Option<string>, window: seq<Event>, ledger: map<string, Txn>): real {
    if tab.Some? && tab.value in tabs then ShareOf(tab.value, window, ledger) else 0.0
  }

  lemma {:induction false} SharesOfOneMore(tabs: seq<string>, part: seq<Event>, e: Event, window: seq<Event>, ledger: map<string, Txn>)
    requires Distinct(tabs)
    ensures SharesOf(tabs, part + [e], window, ledger) == SharesOf(tabs, part, window, ledger) + ShareIn(tabs, e.tab, window, ledger)
    decreases |tabs|
  {
    if tabs != [] {
      var init, last := tabs[..|tabs| - 1], tabs[|tabs| - 1];
      hide ShareOf, SharedBy, Times, Distinct;
      LastIsNew(tabs, e.tab);
      SharesOfOneMore(init, part, e, window, ledger);
      OneMoreShare(part, e, last, ShareOf(last, window, ledger));
    }
  }

  lemma LastIsNew(tabs: seq<string>, tab: Option<string>)
    requires Distinct(tabs) && tabs != []
    ensures var init, last := tabs[..|tabs| - 1], tabs[|tabs| - 1];
      && Distinct(init) && last !in init
      && (tab.Some? ==> (tab.value in tabs <==> tab.value in init || tab.value == last))
  {
    assert tabs == tabs[..|tabs| - 1] + [tabs[|tabs| - 1]];
  }

  /** Part of the window earns its unlinked costs and its shares of the debits. */
  lemma {:induction false} PartRevenue(part: seq<Event>, window: seq<Event>, ledger: map<string, Txn>)
    requires forall e :: e in part ==> e in window
    ensures Total(EventRows(part, window, ledger, true), RevenueOf()) ==
      UnlinkedCost(part, ledger) + SharesOf(TabsOf(window, ledger), part, window, ledger)
    decreases |part|
  {
    hide ShareOf, SharedBy, SharesOf, TabsOf, Distinct;
    var tabs := TabsOf(window, ledger);
    if part == [] {
      NoShares(tabs, window, ledger);
    } else {
      var init, e := part[..|part| - 1], part[|part| - 1];
      assert part == init + [e] && e in window;
      PartRevenue(init, window, ledger);
      SharesOfOneMore(tabs, init, e, window, ledger);
      var rows := EventRows(part, window, ledger, true);
      assert rows[..|rows| - 1] == EventRows(init, window, ledger, true);
      assert Total(rows, RevenueOf()) == Total(EventRows(init, window, ledger, true), RevenueOf()) + Revenue(e, window, ledger);
      assert Linked(e, ledger) ==> e.tab.value in tabs;
    }
  }

  lemma {:induction false} NoShares(tabs: seq<string>, window: seq<Event>, ledger: map<string, Txn>)
    ensures SharesOf(tabs, [], window, ledger) == 0.0
    decreases |tabs|
  {
    if tabs != [] {
      NoShares(tabs[..|tabs| - 1], window, ledger);
      assert Times(0, ShareOf(tabs[|tabs| - 1], window, ledger)) == 0.0;
    }
  }

  lemma {:induction false} SharedByPositive(window: seq<Event>, e: Event)
    requires e in window
    ensures SharedBy(window, e.tab) > 0
    decreases |window|
  {
    var init := window[..|window| - 1];
    assert window == init + [window[|window| - 1]];
    if e in init { SharedByPositive(init, e); }
  }

  lemma WholeOfEqualParts(n: nat, charge: real)
    requires n > 0
    ensures Times(n, charge / n as real) == charge
  {
  }

  /** All the shares of a debit add up to its charge. */
  lemma {:induction false} FullShares(tabs: seq<string>, window: seq<Event>, ledger: map<string, Txn>)
    requires forall t :: t in tabs ==> t in ledger && SharedBy(window, Some(t)) > 0
    ensures SharesOf(tabs, window, window, ledger) == ChargesOf(tabs, ledger)
    decreases |tabs|
  {
    if tabs != [] {
      hide Times, SharedBy;
      var last := tabs[|tabs| - 1];
      assert last in tabs;
      FullShares(tabs[..|tabs| - 1], window, ledger);
      WholeOfEqualParts(SharedBy(window, Some(last)), ledger[last].charge);
      NoShare(SharedBy(window, Some(last)));
    }
  }

  lemma NoShare(n: nat)
    ensures Times(n, 0.0) == 0.0
  {
  }

  lemma UsageAdditive()
    ensures Additive<UsageRow, UsageKey>(ByKey(), AddRows(AddUsage), RevenueOf())
  {
    forall a: UsageRow, b: UsageRow | a.key == b.key
      ensures AddRows(AddUsage)(a, b) == Row(a.key, AddUsage(a.totals, b.totals))
    {
    }
  }

  /** The revenue of a window is the charges of its standing debits, each counted once however
      many events share it, plus the cost of the events the ledger does not know. */
  lemma {:induction false} RevenueConserved(events: seq<Event>, ledger: map<string, Txn>, start: int, end: int)
    ensures var window := Window(events, start, end);
      Total(UsageBuckets(events, ledger, start, end, true), RevenueOf()) ==
      ChargesOf(TabsOf(window, ledger), ledger) + UnlinkedCost(window, ledger)
  {
    var window := Window(events, start, end);
    UsageAdditive();
    MergeConserves(SourceRows(events, ledger, start, end, true), ByKey(), AddRows(AddUsage), RevenueOf());
    PartRevenue(window, window, ledger);
    forall t | t in TabsOf(window, ledger) ensures SharedBy(window, Some(t)) > 0 {
      var e :| e in window && e.tab == Some(t);
      SharedByPositive(window, e);
    }
    FullShares(TabsOf(window, ledger), window, ledger);
  }

  // ------------------------------------------------------------ hourly buckets add up to the daily one

  /** `measure` is one of the totals, or any sum of them. */
  ghost predicate AddsUp(measure: UsageTotals -> real) {
    forall a, b {:trigger AddUsage(a, b)} :: measure(AddUsage(a, b)) == measure(a) + measure(b)
  }

  function OfTotals(measure: UsageTotals -> real): UsageRow -> real { (r: UsageRow) => measure(r.totals) }

  /** What a table built from these rows holds under a key, 0 when it has no such row. */
  function BucketValue(rows: seq<UsageRow>, k: UsageKey, measure: UsageTotals -> real): real {
    if k in KeysOf(rows, ByKey()) then measure(GroupSum(rows, ByKey(), AddRows(AddUsage), k).totals) else 0.0
  }

  lemma BucketIsTotal(rows: seq<UsageRow>, k: UsageKey, measure: UsageTotals -> real)
    requires AddsUp(measure)
    ensures BucketValue(rows, k, measure) == Total(rows, Only(ByKey(), k, OfTotals(measure)))
  {
    forall a: UsageRow, b: UsageRow | a.key == b.key
      ensures AddRows(AddUsage)(a, b) == Row(a.key, AddUsage(a.totals, b.totals))
    {
    }
    assert Additive<UsageRow, UsageKey>(ByKey(), AddRows(AddUsage), OfTotals(measure));
    GroupSumMeasures(rows, ByKey(), AddRows(AddUsage), OfTotals(measure), k);
  }

  /** The buckets of hours `0..n` of one day, for the other fields of `k`. */
  function HoursValue(rows: seq<UsageRow>, k: UsageKey, n: nat, measure: UsageTotals -> real): real {
    if n == 0 then 0.0 else HoursValue(rows, k, n - 1, measure) + BucketValue(rows, k.(hour := n - 1), measure)
  }

  lemma {:induction false} HoursValueOneMore(part: seq<Event>, e: Event, window: seq<Event>, ledger: map<string, Txn>, k: UsageKey, n: nat, measure: UsageTotals -> real)
    requires AddsUp(measure)
    ensures HoursValue(EventRows(part + [e], window, ledger, false), k, n, measure) ==
      HoursValue(EventRows(part, window, ledger, false), k, n, measure) +
      if KeyOf(e, true) == k.(hour := -1) && HourOf(e.createdAt) < n then measure(EventTotals(e, window, ledger)) else 0.0
  {
    if n > 0 {
      HoursValueOneMore(part, e, window, ledger, k, n - 1, measure);
      BucketOneMore(part, e, window, ledger, false, k.(hour := n - 1), measure);
    }
  }

  lemma BucketOneMore(part: seq<Event>, e: Event, window: seq<Event>, ledger: map<string, Txn>, daily: bool, k: UsageKey, measure: UsageTotals -> real)
    requires AddsUp(measure)
    ensures BucketValue(EventRows(part + [e], window, ledger, daily), k, measure) ==
      BucketValue(EventRows(part, window, ledger, daily), k, measure) +
      if KeyOf(e, daily) == k then measure(EventTotals(e, window, ledger)) else 0.0
  {
    var rows, more := EventRows(part, window, ledger, daily), EventRows(part + [e], window, ledger, daily);
    BucketIsTotal(rows, k, measure);
    BucketIsTotal(more, k, measure);
    assert more[..|more| - 1] == rows;
  }

  lemma {:induction false} PartHoursMakeTheDay(part: seq<Event>, window: seq<Event>, ledger: map<string, Txn>, k: UsageKey, measure: UsageTotals -> real)
    requires AddsUp(measure)
    ensures HoursValue(EventRows(part, window, ledger, false), k, 24, measure) ==
      BucketValue(EventRows(part, window, ledger, true), k.(hour := -1), measure)
    decreases |part|
  {
    if part == [] {
      NoHours(window, ledger, k, 24, measure);
    } else {
      var init, e := part[..|part| - 1], part[|part| - 1];
      assert part == init + [e];
      PartHoursMakeTheDay(init, window, ledger, k, measure);
      HoursValueOneMore(init, e, window, ledger, k, 24, measure);
      BucketOneMore(init, e, window, ledger, true, k.(hour := -1), measure);
    }
  }

  lemma {:induction false} NoHours(window: seq<Event>, ledger: map<string, Txn>, k: UsageKey, n: nat, measure: UsageTotals -> real)
    ensures HoursValue(EventRows([], window, ledger, false), k, n, measure) == 0.0
  {
    if n > 0 { NoHours(window, ledger, k, n - 1, measure); }
  }

  /** In every window the 24 hourly buckets of a date, channel, account, country and provider sum to
      its daily bucket, for every total. */
  lemma {:induction false} HoursMakeTheDay(events: seq<Event>, ledger: map<string, Txn>, start: int, end: int, k: UsageKey, measure: UsageTotals -> real)
    requires AddsUp(measure)
    ensures HoursValue(UsageBuckets(events, ledger, start, end, false), k, 24, measure) ==
      BucketValue(UsageBuckets(events, ledger, start, end, true), k.(hour := -1), measure)
  {
    var window := Window(events, start, end);
    PartHoursMakeTheDay(window, window, ledger, k, measure);
    GroupSumOfMerged(SourceRows(events, ledger, start, end, true), AddUsage, k.(hour := -1));
    HoursOfMerged(SourceRows(events, ledger, start, end, false), k, 24, measure);
  }

  lemma {:induction false} HoursOfMerged(rows: seq<UsageRow>, k: UsageKey, n: nat, measure: UsageTotals -> real)
    ensures HoursValue(Merged(rows, ByKey(), AddRows(AddUsage)), k, n, measure) == HoursValue(rows, k, n, measure)
  {
    if n > 0 {
      HoursOfMerged(rows, k, n - 1, measure);
      GroupSumOfMerged(rows, AddUsage, k.(hour := n - 1));
    }
  }

  // ------------------------------------------------------------ what a bucket counts

  /** The event falls into the bucket: its instant in the bucket's Lagos day, and hour unless the bucket
      is a daily one, and its own channel, account, country and operator. */
  ghost predicate FallsInto(e: Event, k: UsageKey, daily: bool) {
    && (if daily then k.hour == -1 && DayStart(k.date) <= e.createdAt < DayStart(k.date + 1)
        else 0 <= k.hour < 24 && DayStart(k.date) + k.hour * 3_600_000 <= e.createdAt < DayStart(k.date) + (k.hour + 1) * 3_600_000)
    && k.channel == e.channel && k.accountId == e.accountId
    && (if e.countryCode.Some? then k.country == e.countryCode.value else k.country == "UNKNOWN")
    && (if e.operator.Some? then k.provider == e.operator.value else k.provider == "UNKNOWN")
  }

  /** How many events of the window fall into the bucket, of one status or of any. */
  ghost function EventCount(events: seq<Event>, start: int, end: int, k: UsageKey, daily: bool, status: Option<string>): nat
    decreases |events|
  {
    if events == [] then 0
    else
      var last := events[|events| - 1];
      EventCount(events[..|events| - 1], start, end, k, daily, status) +
      if start <= last.createdAt < end && FallsInto(last, k, daily) && (status.None? || last.status == status.value) then 1 else 0
  }

  /** How many events of the window name the transaction. */
  ghost function NamedBy(events: seq<Event>, start: int, end: int, tab: string): nat
    decreases |events|
  {
    if events == [] then 0
    else
      var last := events[|events| - 1];
      NamedBy(events[..|events| - 1], start, end, tab) + if start <= last.createdAt < end && last.tab == Some(tab) then 1 else 0
  }

  /** What one event of the window earns: its own cost without a ledger row, an equal part of a standing
      debit, and nothing under any other transaction. */
  ghost function Earned(e: Event, events: seq<Event>, start: int, end: int, ledger: map<string, Txn>): real {
    if e.tab.None? || e.tab.value !in ledger then (if e.cost.Some? then e.cost.value else 0.0)
    else if Stands(ledger, e.tab.value) && NamedBy(events, start, end, e.tab.value) > 0
      then ledger[e.tab.value].charge / NamedBy(events, start, end, e.tab.value) as real
    else 0.0
  }

  /** What the events of `part` that fall into the bucket earn. */
  ghost function EarnedIn(part: seq<Event>, events: seq<Event>, start: int, end: int, k: UsageKey, daily: bool, ledger: map<string, Txn>): real
    decreases |part|
  {
    if part == [] then 0.0
    else
      var last := part[|part| - 1];
      EarnedIn(part[..|part| - 1], events, start, end, k, daily, ledger) +
      if start <= last.createdAt < end && FallsInto(last, k, daily) then Earned(last, events, start, end, ledger) else 0.0
  }

  lemma FallsIntoItsKey(e: Event, k: UsageKey, daily: bool)
    ensures FallsInto(e, k, daily) <==> KeyOf(e, daily) == k
  {
    BoundsAreTheDay(k.date, e.createdAt);
    LagosIsAnHourAhead(k.date, e.createdAt);
    if !daily && FallsInto(e, k, daily) { HourIsUnique(e.createdAt, k.date, k.hour); }
  }

  lemma {:induction false} WindowNames(events: seq<Event>, start: int, end: int, tab: string)
    ensures SharedBy(Window(events, start, end), Some(tab)) == NamedBy(events, start, end, tab)
    decreases |events|
  {
    if events != [] {
      var init, last := events[..|events| - 1], events[|events| - 1];
      WindowNames(init, start, end, tab);
      var window := Window(init, start, end);
      if start <= last.createdAt < end { assert (window + [last])[..|window|] == window; }
      else { assert window + [] == window; }
    }
  }

  lemma EarnsItsRevenue(e: Event, events: seq<Event>, start: int, end: int, ledger: map<string, Txn>)
    ensures Revenue(e, Window(events, start, end), ledger) == Earned(e, events, start, end, ledger)
  {
    if e.tab.Some? { WindowNames(events, start, end, e.tab.value); }
  }

  /** One of the counts a bucket keeps. */
  datatype Tally = Attempted | Succeeded | FailedOnes | Units

  function TallyOf(t: Tally): UsageTotals -> real {
    match t
    case Attempted => (u: UsageTotals) => u.attempted as real
    case Succeeded => (u: UsageTotals) => u.succeeded as real
    case FailedOnes => (u: UsageTotals) => u.failed as real
    case Units => (u: UsageTotals) => u.units as real
  }

  function CostsOf(): UsageTotals -> real { (u: UsageTotals) => u.cost }

  function EarningsOf(): UsageTotals -> real { (u: UsageTotals) => u.revenue }

  /** The status whose events the count counts. */
  function Counted(t: Tally): Option<string> {
    match t case Attempted => None case Succeeded => Some("DELIVERED") case FailedOnes => Some("FAILED") case Units => None
  }

  lemma TalliesAddUp(t: Tally)
    ensures AddsUp(TallyOf(t)) && AddsUp(EarningsOf()) && AddsUp(CostsOf())
  {
  }

  lemma {:induction false} PartTally(part: seq<Event>, window: seq<Event>, ledger: map<string, Txn>, start: int, end: int, k: UsageKey, daily: bool, t: Tally)
    ensures BucketValue(EventRows(Window(part, start, end), window, ledger, daily), k, TallyOf(t)) ==
      EventCount(part, start, end, k, daily, Counted(t)) as real
    decreases |part|
  {
    if part != [] {
      var init, e := part[..|part| - 1], part[|part| - 1];
      PartTally(init, window, ledger, start, end, k, daily, t);
      FallsIntoItsKey(e, k, daily);
      TalliesAddUp(t);
      hide FallsInto, AddsUp, BucketValue, Revenue;
      if start <= e.createdAt < end { BucketOneMore(Window(init, start, end), e, window, ledger, daily, k, TallyOf(t)); }
      else { assert Window(part, start, end) == Window(init, start, end); }
    }
  }

  lemma {:induction false} PartEarns(part: seq<Event>, events: seq<Event>, ledger: map<string, Txn>, start: int, end: int, k: UsageKey, daily: bool)
    ensures BucketValue(EventRows(Window(part, start, end), Window(events, start, end), ledger, daily), k, EarningsOf()) ==
      EarnedIn(part, events, start, end, k, daily, ledger)
    decreases |part|
  {
    var window := Window(events, start, end);
    if part != [] {
      var init, e := part[..|part| - 1], part[|part| - 1];
      PartEarns(init, events, ledger, start, end, k, daily);
      FallsIntoItsKey(e, k, daily);
      EarnsItsRevenue(e, events, start, end, ledger);
      TalliesAddUp(Attempted);
      hide FallsInto, AddsUp, BucketValue, Revenue, Earned;
      if start <= e.createdAt < end { BucketOneMore(Window(init, start, end), e, window, ledger, daily, k, EarningsOf()); }
      else { assert Window(part, start, end) == Window(init, start, end); }
    }
  }

  /** The query asks for no cost of its own. */
  lemma {:induction false} NoCosts(part: seq<Event>, window: seq<Event>, ledger: map<string, Txn>, k: UsageKey, daily: bool)
    ensures BucketValue(EventRows(part, window, ledger, daily), k, CostsOf()) == 0.0
    decreases |part|
  {
    if part != [] {
      var init, e := part[..|part| - 1], part[|part| - 1];
      assert part == init + [e];
      NoCosts(init, window, ledger, k, daily);
      TalliesAddUp(Attempted);
      hide AddsUp, BucketValue, Revenue;
      BucketOneMore(init, e, window, ledger, daily, k, CostsOf());
    }
  }

  /** The totals are those of the events of the window that fall into the bucket. */
  ghost predicate Tells(totals: UsageTotals, events: seq<Event>, ledger: map<string, Txn>, start: int, end: int, k: UsageKey, daily: bool) {
    && totals.attempted == totals.units == EventCount(events, start, end, k, daily, None)
    && totals.succeeded == EventCount(events, start, end, k, daily, Some("DELIVERED"))
    && totals.failed == EventCount(events, start, end, k, daily, Some("FAILED"))
    && totals.revenue == EarnedIn(events, events, start, end, k, daily, ledger) && totals.cost == 0.0
  }

  lemma {:induction false} BucketHasEvents(part: seq<Event>, window: seq<Event>, ledger: map<string, Txn>, start: int, end: int, k: UsageKey, daily: bool)
    ensures k in KeysOf(EventRows(Window(part, start, end), window, ledger, daily), ByKey()) <==>
      EventCount(part, start, end, k, daily, None) > 0
    decreases |part|
  {
    if part != [] {
      var init, e := part[..|part| - 1], part[|part| - 1];
      BucketHasEvents(init, window, ledger, start, end, k, daily);
      FallsIntoItsKey(e, k, daily);
      hide FallsInto, EventTotals;
      var before, after := EventRows(Window(init, start, end), window, ledger, daily), EventRows(Window(part, start, end), window, ledger, daily);
      if start <= e.createdAt < end {
        assert after == before + [Row(KeyOf(e, daily), EventTotals(e, window, ledger))];
        assert KeysOf(after, ByKey()) == KeysOf(before, ByKey()) + [KeyOf(e, daily)];
      } else {
        assert Window(part, start, end) == Window(init, start, end);
      }
    }
  }

  /** There is a bucket under a key exactly when events of the window fall into it, and its totals are
      theirs: how many there are, how many were delivered, how many failed, and what they earned. */
  lemma {:induction false} SourceTells(events: seq<Event>, ledger: map<string, Txn>, start: int, end: int, daily: bool, k: UsageKey)
    ensures var rows := SourceRows(events, ledger, start, end, daily);
      && (k in KeysOf(rows, ByKey()) <==> EventCount(events, start, end, k, daily, None) > 0)
      && (k in KeysOf(rows, ByKey()) ==> Tells(GroupSum(rows, ByKey(), AddRows(AddUsage), k).totals, events, ledger, start, end, k, daily))
  {
    var window := Window(events, start, end);
    BucketHasEvents(events, window, ledger, start, end, k, daily);
    PartTally(events, window, ledger, start, end, k, daily, Attempted);
    PartTally(events, window, ledger, start, end, k, daily, Succeeded);
    PartTally(events, window, ledger, start, end, k, daily, FailedOnes);
    PartTally(events, window, ledger, start, end, k, daily, Units);
    PartEarns(events, events, ledger, start, end, k, daily);
    NoCosts(window, window, ledger, k, daily);
    hide EventCount, EarnedIn, EventRows, Window, GroupSum, KeysOf;
  }

  /** The query returns one row for each key that events of the window fall into, with their totals. */
  lemma {:induction false} UsageBucketsTell(events: seq<Event>, ledger: map<string, Txn>, start: int, end: int, daily: bool, k: UsageKey)
    ensures var buckets := UsageBuckets(events, ledger, start, end, daily);
      && Distinct(KeysOf(buckets, ByKey()))
      && (k in KeysOf(buckets, ByKey()) <==> EventCount(events, start, end, k, daily, None) > 0)
      && forall i :: 0 <= i < |buckets| && buckets[i].key == k ==> Tells(buckets[i].totals, events, ledger, start, end, k, daily)
  {
    var rows := SourceRows(events, ledger, start, end, daily);
    var buckets := UsageBuckets(events, ledger, start, end, daily);
    StoreMergedIsOverride<UsageKey, UsageTotals>(map[], rows, AddUsage, None);
    GroupSumOfMerged(rows, AddUsage, k);
    SourceTells(events, ledger, start, end, daily, k);
    hide Tells, EventCount, SourceRows;
    var keys := FirstKeys(KeysOf(rows, ByKey()));
    forall i | 0 <= i < |buckets| ensures buckets[i].key == keys[i] { GroupSumKeepsKey(rows, AddUsage, keys[i]); }
  }
}
